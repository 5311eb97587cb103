/** The progress line of the load generator: a goroutine of its own loads `requests` and then
    `failures`, two atomic loads with anything in between, warm-up reset included. A load changes
    nothing, so a reading is two positions in a trace of the recorder. */
module Progress {
  import opened Histogram
  import opened Traces
  import R = Recorder
  import C = ClosedLoop

  /** A reading: the first load at position i, the second at position j. */
  ghost predicate Reads(tr: Trace, i: nat, j: nat) { IsTrace(tr) && i <= j <= |tr.moves| }

  ghost function LoadRequests(tr: Trace, i: nat): nat
    requires i < |tr.states|
  {
    tr.states[i].rec.requests
  }

  ghost function LoadFailures(tr: Trace, j: nat): nat
    requires j < |tr.states|
  {
    tr.states[j].rec.failures
  }

  // ------------------------------------------------------------- what happens between the loads

  predicate CountsRequest(s: R.Sys, m: Move) {
    m.Atomic? && m.step.Count1? && m.step.w in s.pcs && s.pcs[m.step.w].Counting? && !s.pcs[m.step.w].o.Dropped?
  }

  predicate CountsFailure(s: R.Sys, m: Move) {
    m.Atomic? && m.step.Count2? && m.step.w in s.pcs && s.pcs[m.step.w].Adding? && s.pcs[m.step.w].o.Failed?
  }

  predicate ZeroesFailures(m: Move) { m.Atomic? && m.step.ZeroFailures? }

  /** Requests counted between the loads. */
  ghost function Counted(tr: Trace, i: nat, j: nat): nat
    requires j <= |tr.moves| < |tr.states|
  {
    if j <= i then 0 else Counted(tr, i, j - 1) + if CountsRequest(tr.states[j - 1], tr.moves[j - 1]) then 1 else 0
  }

  /** Failures counted between the loads, since the last reset among them if there was one. */
  ghost function Failed(tr: Trace, i: nat, j: nat): nat
    requires j <= |tr.moves| < |tr.states|
  {
    if j <= i || ZeroesFailures(tr.moves[j - 1]) then 0
    else Failed(tr, i, j - 1) + if CountsFailure(tr.states[j - 1], tr.moves[j - 1]) then 1 else 0
  }

  /** A reset zeroed `failures` between the loads. */
  ghost predicate Zeroed(tr: Trace, i: nat, j: nat)
    requires j <= |tr.moves|
  {
    exists k | i <= k < j :: ZeroesFailures(tr.moves[k])
  }

  /** Both loads fall between the same reset's stores of `requests` and `failures`. */
  ghost predicate InOneWindow(tr: Trace, i: nat, j: nat)
    requires i <= j <= |tr.moves| < |tr.states|
  {
    tr.states[i].reset.RequestsZeroed? && !Zeroed(tr, i, j)
  }

  /** Counted requests that have succeeded, or have not failed yet. */
  ghost function Unfailed(s: R.Sys): nat { s.rec.latSeen + Count(s.pcs, R.OwesResult) }

  // ------------------------------------------------------------- one step at a time

  lemma CountersStep(s: R.Sys, m: Move, s': R.Sys)
    requires Leads(s, m, s')
    ensures s'.rec.requests <= s.rec.requests + if CountsRequest(s, m) then 1 else 0
    ensures s'.rec.failures == if ZeroesFailures(m) then 0 else s.rec.failures + if CountsFailure(s, m) then 1 else 0
  {
  }

  predicate Unchanged(s: R.Sys, s': R.Sys) { s'.rec == s.rec && s'.reset == s.reset }

  lemma WindowStep(s: R.Sys, m: Move, s': R.Sys)
    requires Leads(s, m, s') && !ZeroesFailures(m)
    ensures s.reset.RequestsZeroed? ==> Unchanged(s, s')
    ensures s.reset.MapsCleared? ==> s'.reset.MapsCleared? || s'.reset.RequestsZeroed?
    ensures s.reset.MapsCleared? || s.reset.RequestsZeroed? ==> !CountsFailure(s, m) && !CountsRequest(s, m)
    ensures s'.reset.RequestsZeroed? ==> Unchanged(s, s') || s.reset.MapsCleared?
  {
  }

  lemma ZeroedStep(tr: Trace, i: nat, j: nat)
    requires i < j <= |tr.moves|
    ensures Zeroed(tr, i, j) <==> Zeroed(tr, i, j - 1) || ZeroesFailures(tr.moves[j - 1])
  {
  }

  /** The second load, by what was counted. */
  lemma {:induction false} FailuresRead(tr: Trace, i: nat, j: nat)
    requires Linked(tr) && i <= j <= |tr.moves|
    ensures LoadFailures(tr, j) == Failed(tr, i, j) + if Zeroed(tr, i, j) then 0 else LoadFailures(tr, i)
    decreases j
  {
    if i < j {
      FailuresRead(tr, i, j - 1);
      ZeroedStep(tr, i, j);
      CountersStep(tr.states[j - 1], tr.moves[j - 1], tr.states[j]);
    }
  }

  /** Before its store of `failures` a reset that holds the first load lets nothing be counted. */
  lemma {:induction false} HeldByReset(tr: Trace, i: nat, j: nat)
    requires Linked(tr) && i <= j <= |tr.moves| && !Zeroed(tr, i, j)
    requires tr.states[i].reset.MapsCleared? || tr.states[i].reset.RequestsZeroed?
    ensures Failed(tr, i, j) == 0
    ensures tr.states[j].reset.MapsCleared? || tr.states[j].reset.RequestsZeroed?
    ensures tr.states[i].reset.RequestsZeroed? ==> Unchanged(tr.states[i], tr.states[j]) && Counted(tr, i, j) == 0
    decreases j
  {
    if i < j {
      ZeroedStep(tr, i, j);
      HeldByReset(tr, i, j - 1);
      WindowStep(tr.states[j - 1], tr.moves[j - 1], tr.states[j]);
    }
  }

  /** A reset does not begin with more failures than requests. */
  ghost predicate BeginsCalm(tr: Trace) {
    forall k | 0 <= k < |tr.states| && tr.states[k].reset.MapsCleared? ::
      tr.states[k].rec.failures <= tr.states[k].rec.requests
  }

  lemma TraceBeginsCalm(tr: Trace)
    requires IsTrace(tr)
    ensures BeginsCalm(tr)
  {
  }

  lemma {:induction false} RequestsSince(tr: Trace, i: nat, j: nat)
    requires Linked(tr) && BeginsCalm(tr) && i <= j <= |tr.moves|
    ensures LoadRequests(tr, j) <= LoadRequests(tr, i) + Counted(tr, i, j)
    ensures tr.states[j].reset.RequestsZeroed? && !InOneWindow(tr, i, j) ==>
              LoadFailures(tr, j) <= LoadRequests(tr, i) + Counted(tr, i, j)
    decreases j
  {
    if i < j {
      RequestsSince(tr, i, j - 1);
      ZeroedStep(tr, i, j);
      var s, m, s' := tr.states[j - 1], tr.moves[j - 1], tr.states[j];
      CountersStep(s, m, s');
      if !ZeroesFailures(m) {
        WindowStep(s, m, s');
      } else {
        ZeroStep(s, m, s');
      }
    }
  }

  lemma ZeroStep(s: R.Sys, m: Move, s': R.Sys)
    requires Leads(s, m, s') && ZeroesFailures(m)
    ensures s'.reset.FailuresZeroed?
  {
  }

  // ------------------------------------------------------------- when the line shows more failures than requests

  lemma SnapshotIff(s: R.Sys)
    requires R.Inv(s)
    ensures s.rec.failures > s.rec.requests <==> s.reset.RequestsZeroed? && s.reset.failuresBefore > 0
    ensures s.reset.RequestsZeroed? ==> s.rec.requests == 0 && s.rec.failures == s.reset.failuresBefore
    ensures s.reset.NoReset? || s.reset.FailuresZeroed? ==> s.rec.requests - s.rec.failures == Unfailed(s)
  {
    if s.reset.FailuresZeroed? {
      R.NoDebts(s.pcs);
    }
  }

  /** The progress line shows more failures than requests exactly when
      - a reset zeroed `failures` between the loads, and more failures were counted since than requests
        had been when the first load was made;
      - or none did, and the first load fell between the reset's stores of the two, after a load with
        failures;
      - or neither, and between the loads more failures were counted than there were requests at the
        first load that had not failed by then. */
  lemma ReadingIff(tr: Trace, i: nat, j: nat)
    requires Reads(tr, i, j)
    ensures var before := tr.states[i];
            LoadFailures(tr, j) > LoadRequests(tr, i) <==>
              if Zeroed(tr, i, j) then Failed(tr, i, j) > LoadRequests(tr, i)
              else if before.reset.RequestsZeroed? then before.reset.failuresBefore > 0
              else Failed(tr, i, j) > Unfailed(before)
  {
    FailuresRead(tr, i, j);
    SnapshotIff(tr.states[i]);
    var before := tr.states[i];
    if !Zeroed(tr, i, j) && (before.reset.MapsCleared? || before.reset.RequestsZeroed?) {
      HeldByReset(tr, i, j);
    }
  }

  /** How far off the line can be: by no more than the requests counted between the loads, if and only
      if the two loads do not share a reset's window after a load with failures. */
  lemma ReadingBoundIff(tr: Trace, i: nat, j: nat)
    requires Reads(tr, i, j)
    ensures LoadFailures(tr, j) > LoadRequests(tr, i) + Counted(tr, i, j) <==>
              InOneWindow(tr, i, j) && LoadFailures(tr, j) > 0
  {
    TraceBeginsCalm(tr);
    RequestsSince(tr, i, j);
    SnapshotIff(tr.states[j]);
    if InOneWindow(tr, i, j) {
      HeldByReset(tr, i, j);
    }
  }

  // ------------------------------------------------------------- what the line can show

  /** A reset-free run of the closed loop in which the line shows these two numbers. */
  ghost predicate Shows(cfg: C.Config, run: seq<C.Step>, i: nat, requests: nat, failures: nat) {
    && C.Valid(cfg, run) && C.ResetFree(run) && i <= |run|
    && LoadRequests(ClosedTrace(cfg, run), i) == requests && LoadFailures(ClosedTrace(cfg, run), |run|) == failures
  }

  lemma {:induction false} NoResetYet(cfg: C.Config, run: seq<C.Step>)
    requires C.Valid(cfg, run) && C.ResetFree(run)
    ensures C.Exec(cfg, run).reset.NoReset?
    decreases |run|
  {
    if run != [] {
      var p := run[..|run| - 1];
      assert forall k | 0 <= k < |p| :: p[k] == run[k];
      NoResetYet(cfg, p);
      assert !C.Resets(run[|run| - 1]);
    }
  }

  lemma ShownWithinBound(cfg: C.Config, run: seq<C.Step>, i: nat, requests: nat, failures: nat)
    requires cfg.workers > 0 && cfg.limit > 0 && Shows(cfg, run, i, requests, failures)
    ensures requests <= cfg.limit + cfg.workers - 1 && failures <= cfg.limit + cfg.workers - 1
  {
    StateAt(cfg, run, i);
    C.OvershootBound(cfg, run[..i]);
    ClosedIsTrace(cfg, run);
    NoResetYet(cfg, run);
    C.OvershootBound(cfg, run);
    C.SnapshotFailuresIff(cfg, run);
  }

  lemma AnyReading(cfg: C.Config, requests: nat, failures: nat) returns (run: seq<C.Step>, i: nat)
    requires cfg.workers > 0
    requires cfg.limit > 0 ==> requests <= cfg.limit + cfg.workers - 1 && failures <= cfg.limit + cfg.workers - 1
    ensures Shows(cfg, run, i, requests, failures)
  {
    var first := C.StockedNothing(cfg, failures);
    first := C.Grow(cfg, first, 0, requests, failures);
    run := C.Grow(cfg, first, requests, if requests < failures then failures else requests, failures);
    i := |first|;
    assert run[..i] == first;
    StateAt(cfg, run, i);
    ClosedIsTrace(cfg, run);
  }

  /** Without any reset, the line can show a pair of numbers if and only if each of them is one that
      the counter of requests can reach: anything without a limit, limit + workers - 1 with one. */
  lemma ShownIff(cfg: C.Config, requests: nat, failures: nat)
    requires cfg.workers > 0
    ensures (exists run, i: nat :: Shows(cfg, run, i, requests, failures)) <==>
              (cfg.limit > 0 ==> requests <= cfg.limit + cfg.workers - 1 && failures <= cfg.limit + cfg.workers - 1)
  {
    if cfg.limit > 0 ==> requests <= cfg.limit + cfg.workers - 1 && failures <= cfg.limit + cfg.workers - 1 {
      var run, i := AnyReading(cfg, requests, failures);
      assert Shows(cfg, run, i, requests, failures);
    } else {
      forall run, i: nat ensures !Shows(cfg, run, i, requests, failures) {
        if Shows(cfg, run, i, requests, failures) {
          ShownWithinBound(cfg, run, i, requests, failures);
        }
      }
    }
  }

  /** Inside one reset's window it can show any such number of failures with no request at all. */
  lemma WindowReading(cfg: C.Config, failures: nat) returns (run: seq<C.Step>)
    requires cfg.workers > 0 && (cfg.limit > 0 ==> failures <= cfg.limit + cfg.workers - 1)
    ensures C.Valid(cfg, run) && InOneWindow(ClosedTrace(cfg, run), |run|, |run|)
    ensures LoadRequests(ClosedTrace(cfg, run), |run|) == 0 && LoadFailures(ClosedTrace(cfg, run), |run|) == failures
  {
    run := C.ReachWindow(cfg, failures);
    ClosedIsTrace(cfg, run);
  }
}
