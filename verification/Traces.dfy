/** Traces of the recorder: any sequence of its atomic steps, among steps of the loop that drives it.
    Runs of either loop give such traces, so what is proved of traces holds of both. */
module Traces {
  import R = Recorder
  import C = ClosedLoop
  import O = OpenLoop

  /** Inside `doRequest`. */
  predicate Inside(pc: R.Pc) { !pc.Idle? && !pc.Admitted? }

  /** The same goroutines stand at the same places inside `doRequest`. */
  ghost predicate SameInside(pcs: map<nat, R.Pc>, pcs': map<nat, R.Pc>) {
    && (forall w | w in pcs && Inside(pcs[w]) :: w in pcs' && pcs'[w] == pcs[w])
    && (forall w | w in pcs' && Inside(pcs'[w]) :: w in pcs && pcs[w] == pcs'[w])
  }

  /** A step of the loop moves goroutines up to `doRequest` and leaves the recorder alone. */
  datatype Move = Loop | Atomic(step: R.Step)

  datatype Trace = Trace(states: seq<R.Sys>, moves: seq<Move>)

  ghost predicate Leads(s: R.Sys, m: Move, s': R.Sys) {
    match m
    case Loop => s'.rec == s.rec && s'.reset == s.reset && SameInside(s.pcs, s'.pcs)
    case Atomic(t) => R.Enabled(s, t) && s' == R.Apply(s, t)
  }

  ghost predicate Linked(tr: Trace) {
    && |tr.states| == |tr.moves| + 1
    && (forall k | 0 <= k < |tr.moves| :: Leads(tr.states[k], tr.moves[k], tr.states[k + 1]))
  }

  ghost predicate IsTrace(tr: Trace) { Linked(tr) && forall k | 0 <= k < |tr.states| :: R.Inv(tr.states[k]) }

  // ------------------------------------------------------------- the two loops

  function ClosedMove(t: C.Step): Move { if t.Core? then Atomic(t.step) else Loop }

  /** What a run of the closed loop does to the recorder. */
  ghost function ClosedTrace(cfg: C.Config, run: seq<C.Step>): (tr: Trace)
    requires C.Valid(cfg, run)
    ensures |tr.moves| == |run| && |tr.states| == |run| + 1
    decreases |run|
  {
    if run == [] then Trace([C.Exec(cfg, run)], [])
    else
      var p := ClosedTrace(cfg, run[..|run| - 1]);
      Trace(p.states + [C.Exec(cfg, run)], p.moves + [ClosedMove(run[|run| - 1])])
  }

  lemma LongerTrace(p: Trace, m: Move, s: R.Sys)
    requires IsTrace(p) && R.Inv(s) && Leads(p.states[|p.moves|], m, s)
    ensures IsTrace(Trace(p.states + [s], p.moves + [m]))
  {
    var tr := Trace(p.states + [s], p.moves + [m]);
    forall k | 0 <= k < |tr.moves| ensures Leads(tr.states[k], tr.moves[k], tr.states[k + 1]) {
      if k < |p.moves| {
        assert tr.states[k] == p.states[k] && tr.moves[k] == p.moves[k] && tr.states[k + 1] == p.states[k + 1];
      }
    }
  }

  lemma ClosedLeads(cfg: C.Config, s: R.Sys, t: C.Step)
    requires C.Enabled(cfg, s, t)
    ensures Leads(s, ClosedMove(t), C.Apply(cfg, s, t))
  {
  }

  lemma ClosedInv(cfg: C.Config, run: seq<C.Step>)
    requires C.Valid(cfg, run)
    ensures R.Inv(C.Exec(cfg, run))
  {
    C.ExecKeeps(cfg, run);
  }

  /** Every run of the closed loop is a trace of the recorder, warm-up and reset included. */
  lemma {:induction false} ClosedIsTrace(cfg: C.Config, run: seq<C.Step>)
    requires C.Valid(cfg, run)
    ensures IsTrace(ClosedTrace(cfg, run)) && ClosedTrace(cfg, run).states[|run|] == C.Exec(cfg, run)
    decreases |run|
  {
    ClosedInv(cfg, run);
    if run != [] {
      var p, t := run[..|run| - 1], run[|run| - 1];
      ClosedIsTrace(cfg, p);
      ClosedLeads(cfg, C.Exec(cfg, p), t);
      LongerTrace(ClosedTrace(cfg, p), ClosedMove(t), C.Exec(cfg, run));
    }
  }

  function OpenMove(t: O.Step): Move { if t.Core? then Atomic(t.step) else Loop }

  /** What a run of the open loop does to the recorder. */
  ghost function OpenTrace(cfg: O.Config, run: seq<O.Step>): (tr: Trace)
    requires cfg.clients > 0 && O.Valid(cfg, run)
    ensures |tr.moves| == |run| && |tr.states| == |run| + 1
    decreases |run|
  {
    if run == [] then Trace([O.Exec(cfg, run).sys], [])
    else
      var p := OpenTrace(cfg, run[..|run| - 1]);
      Trace(p.states + [O.Exec(cfg, run).sys], p.moves + [OpenMove(run[|run| - 1])])
  }

  lemma OpenLeads(cfg: O.Config, s: O.State, t: O.Step)
    requires cfg.clients > 0 && O.Enabled(cfg, s, t) && |s.conns| !in s.sys.pcs
    ensures Leads(s.sys, OpenMove(t), O.Apply(cfg, s, t).sys)
  {
  }

  lemma OpenInv(cfg: O.Config, run: seq<O.Step>)
    requires cfg.clients > 0 && O.Valid(cfg, run)
    ensures R.Inv(O.Exec(cfg, run).sys) && |O.Exec(cfg, run).conns| !in O.Exec(cfg, run).sys.pcs
  {
    O.ExecKeeps(cfg, run);
  }

  /** And so is every run of the open loop. */
  lemma {:induction false} OpenIsTrace(cfg: O.Config, run: seq<O.Step>)
    requires cfg.clients > 0 && O.Valid(cfg, run)
    ensures IsTrace(OpenTrace(cfg, run)) && OpenTrace(cfg, run).states[|run|] == O.Exec(cfg, run).sys
    decreases |run|
  {
    OpenInv(cfg, run);
    if run != [] {
      var p, t := run[..|run| - 1], run[|run| - 1];
      OpenIsTrace(cfg, p);
      OpenInv(cfg, p);
      OpenLeads(cfg, O.Exec(cfg, p), t);
      LongerTrace(OpenTrace(cfg, p), OpenMove(t), O.Exec(cfg, run).sys);
    }
  }

  lemma {:induction false} StateAt(cfg: C.Config, run: seq<C.Step>, i: nat)
    requires C.Valid(cfg, run) && i <= |run|
    ensures C.Valid(cfg, run[..i]) && ClosedTrace(cfg, run).states[i] == C.Exec(cfg, run[..i])
    decreases |run|
  {
    if i == |run| {
      assert run[..i] == run;
    } else {
      StateAt(cfg, run[..|run| - 1], i);
      assert run[..|run| - 1][..i] == run[..i];
    }
  }
}
