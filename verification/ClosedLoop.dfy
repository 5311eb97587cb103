/** `runClosed`: conns * workers goroutines that check the request limit, wait for the pacer and then
    call `doRequest`. The check and the count are separate, so the limit can be overshot. */
module ClosedLoop {
  import opened Histogram
  import R = Recorder

  /** `limit <= 0` means no limit. */
  datatype Config = Config(workers: nat, limit: int)

  datatype Step = Admit(w: nat) | Quit(w: nat) | Core(step: R.Step)

  predicate Enabled(cfg: Config, s: R.Sys, t: Step) {
    match t
    case Admit(w) => R.At(s, w) && s.pcs[w].Idle? && (cfg.limit > 0 ==> s.rec.requests < cfg.limit)
    case Quit(w) => R.At(s, w) && s.pcs[w].Admitted?
    case Core(c) => R.Enabled(s, c)
  }

  function Apply(cfg: Config, s: R.Sys, t: Step): R.Sys
    requires Enabled(cfg, s, t)
  {
    match t
    case Admit(w) => s.(pcs := s.pcs[w := R.Admitted])
    case Quit(w) => s.(pcs := s.pcs[w := R.Idle])
    case Core(c) => R.Apply(s, c)
  }

  /** The goroutines just started, all at the head of their loops. */
  function Pool(n: nat): (pcs: map<nat, R.Pc>)
    ensures |pcs| == n && forall w :: w in pcs <==> 0 <= w < n
    ensures forall w | w in pcs :: pcs[w].Idle?
  {
    if n == 0 then map[] else Pool(n - 1)[n - 1 := R.Idle]
  }

  function Init(cfg: Config): R.Sys {
    R.Sys(R.FRESH, R.NO_HISTORY, Pool(cfg.workers), R.NoReset)
  }

  ghost predicate Valid(cfg: Config, run: seq<Step>)
    decreases |run|, 0
  {
    run == [] || (Valid(cfg, run[..|run| - 1]) && Enabled(cfg, Exec(cfg, run[..|run| - 1]), run[|run| - 1]))
  }

  ghost function Exec(cfg: Config, run: seq<Step>): R.Sys
    requires Valid(cfg, run)
    decreases |run|, 1
  {
    if run == [] then Init(cfg) else Apply(cfg, Exec(cfg, run[..|run| - 1]), run[|run| - 1])
  }

  /** Past the limit check, not yet counted. */
  predicate Past(pc: R.Pc) { pc.Admitted? || pc.Requesting? || pc.Counting? }

  ghost predicate Bounded(cfg: Config, s: R.Sys) {
    && |s.pcs| == cfg.workers
    && (cfg.limit > 0 && cfg.workers > 0 ==> s.rec.requests + Count(s.pcs, Past) <= cfg.limit + cfg.workers - 1)
  }

  lemma StepBounded(cfg: Config, s: R.Sys, t: Step)
    requires Bounded(cfg, s) && Enabled(cfg, s, t)
    ensures Bounded(cfg, Apply(cfg, s, t))
  {
    var s' := Apply(cfg, s, t);
    if t.Admit? || t.Quit? {
      CountMove(s.pcs, t.w, s'.pcs[t.w], Past);
    } else if t.step.Begin? || t.step.Unbuildable? || t.step.Decide? || t.step.Count1? || t.step.Count2? || t.step.Record? {
      CountMove(s.pcs, t.step.w, s'.pcs[t.step.w], Past);
    }
    CountBound(s'.pcs, Past);
    assert |s'.pcs| == |s.pcs|  by {
      assert s'.pcs.Keys == s.pcs.Keys;
      assert |s'.pcs.Keys| == |s'.pcs| && |s.pcs.Keys| == |s.pcs|;
    }
  }

  lemma StepKeeps(cfg: Config, s: R.Sys, t: Step)
    requires R.Inv(s) && Enabled(cfg, s, t)
    ensures R.Inv(Apply(cfg, s, t))
  {
    match t
    case Core(c) => R.StepKeeps(s, c);
    case Admit(w) => R.DebtsMove(s.pcs, w, R.Admitted);
    case Quit(w) => R.DebtsMove(s.pcs, w, R.Idle);
  }

  /** In every interleaving: the recorder's books balance up to what is owed, and counted requests
      plus workers past the check stay below limit + workers. */
  lemma {:induction false} ExecKeeps(cfg: Config, run: seq<Step>)
    requires Valid(cfg, run)
    ensures R.Inv(Exec(cfg, run)) && Bounded(cfg, Exec(cfg, run))
    decreases |run|
  {
    if run == [] {
      R.InitInv(Init(cfg).pcs);
      CountNone(Init(cfg).pcs, Past);
    } else {
      ExecKeeps(cfg, run[..|run| - 1]);
      StepKeeps(cfg, Exec(cfg, run[..|run| - 1]), run[|run| - 1]);
      StepBounded(cfg, Exec(cfg, run[..|run| - 1]), run[|run| - 1]);
    }
  }

  /** The overshoot bound: at most workers - 1 requests beyond the limit, in any state of any run. */
  lemma OvershootBound(cfg: Config, run: seq<Step>)
    requires Valid(cfg, run) && cfg.limit > 0 && cfg.workers > 0
    ensures Exec(cfg, run).rec.requests + Count(Exec(cfg, run).pcs, Past) <= cfg.limit + cfg.workers - 1
  {
    ExecKeeps(cfg, run);
  }

  /** Looked at in one instant, failures exceed requests in exactly one window: a reset has zeroed
      `requests` and not yet `failures`, after a load that had failures. The drop kinds always sum to
      the drops. */
  lemma SnapshotFailuresIff(cfg: Config, run: seq<Step>)
    requires Valid(cfg, run)
    ensures var s := Exec(cfg, run);
            && (s.rec.failures > s.rec.requests <==> s.reset.RequestsZeroed? && s.reset.failuresBefore > 0)
            && Total(s.rec.kinds, R.IsClosedKind) == s.rec.connDrops
  {
    ExecKeeps(cfg, run);
  }

  /** Conservation once the workers have joined. */
  lemma JoinedRun(cfg: Config, run: seq<Step>)
    requires Valid(cfg, run) && R.AllIdle(Exec(cfg, run)) && Exec(cfg, run).reset.NoReset?
    ensures var s := Exec(cfg, run);
            && s.rec.requests - s.rec.failures == s.rec.latSeen
            && Total(s.rec.kinds, Any) == s.rec.failures + s.rec.connDrops
            && Total(s.rec.status, Any) == s.rec.latSeen + s.hist.statusFailures
            && s.hist.attempts == s.rec.requests + s.rec.abandoned + s.hist.unbuildable
  {
    ExecKeeps(cfg, run);
    R.JoinedBalances(Exec(cfg, run));
  }

  // ------------------------------------------------------------- runs that reach the edge cases

  predicate Resets(t: Step) { t.Core? && R.IsReset(t.step) }

  /** More steps, none of them a reset's. */
  ghost predicate Continues(run: seq<Step>, next: seq<Step>) {
    run <= next && forall k | |run| <= k < |next| :: !Resets(next[k])
  }

  lemma Nothing(cfg: Config) returns (run: seq<Step>)
    ensures |run| == 0
    ensures Valid(cfg, run) && Exec(cfg, run) == Init(cfg)
  {
    run := seq(0, i => Core(R.ClearMaps));
  }

  lemma Extend(cfg: Config, run: seq<Step>, t: Step) returns (next: seq<Step>)
    requires Valid(cfg, run) && Enabled(cfg, Exec(cfg, run), t)
    ensures next == run + [t]
    ensures Valid(cfg, next) && Exec(cfg, next) == Apply(cfg, Exec(cfg, run), t)
  {
    next := run + [t];
    assert next[..|next| - 1] == run;
  }

  /** From the loop's check to the count, for an admitted worker. */
  lemma CountOne(cfg: Config, run: seq<Step>, w: nat, reply: R.Reply) returns (next: seq<Step>)
    requires Valid(cfg, run) && R.At(Exec(cfg, run), w) && Exec(cfg, run).pcs[w].Admitted?
    requires !R.Classify(reply, false).Dropped?
    ensures Continues(run, next) && Valid(cfg, next)
    ensures var s, s' := Exec(cfg, run), Exec(cfg, next);
            && s'.rec.requests == s.rec.requests + 1 && s'.rec.failures == s.rec.failures
            && s'.pcs == s.pcs[w := R.Adding(R.Classify(reply, false))] && s'.reset == s.reset
  {
    next := Extend(cfg, run, Core(R.Begin(w)));
    next := Extend(cfg, next, Core(R.Decide(w, reply, false)));
    next := Extend(cfg, next, Core(R.Count1(w)));
  }

  lemma AdmitOne(cfg: Config, run: seq<Step>, w: nat) returns (next: seq<Step>)
    requires Valid(cfg, run) && Enabled(cfg, Exec(cfg, run), Admit(w))
    ensures Continues(run, next) && Valid(cfg, next)
    ensures Exec(cfg, next) == Exec(cfg, run).(pcs := Exec(cfg, run).pcs[w := R.Admitted])
  {
    next := Extend(cfg, run, Admit(w));
  }

  lemma BackToIdle(pcs: map<nat, R.Pc>, w: nat, o: R.Outcome)
    requires w in pcs && pcs[w] == R.Idle
    ensures pcs[w := R.Admitted][w := R.Adding(o)][w := R.Idle] == pcs
  {
  }

  /** From the count to the end of the request. */
  lemma FinishOne(cfg: Config, run: seq<Step>, w: nat) returns (next: seq<Step>)
    requires Valid(cfg, run) && R.At(Exec(cfg, run), w) && Exec(cfg, run).pcs[w].Adding?
    ensures Continues(run, next) && Valid(cfg, next)
    ensures var s, s' := Exec(cfg, run), Exec(cfg, next);
            && s'.rec.requests == s.rec.requests
            && s'.rec.failures == s.rec.failures + (if s.pcs[w].o.Failed? then 1 else 0)
            && s'.pcs == s.pcs[w := R.Idle] && s'.reset == s.reset
  {
    next := Extend(cfg, run, Core(R.Count2(w)));
    next := Extend(cfg, next, Core(R.Record(w)));
  }

  /** One whole loop iteration of an idle worker. */
  lemma OneRequest(cfg: Config, run: seq<Step>, w: nat, reply: R.Reply) returns (next: seq<Step>)
    requires Valid(cfg, run) && R.At(Exec(cfg, run), w) && Exec(cfg, run).pcs[w].Idle?
    requires cfg.limit > 0 ==> Exec(cfg, run).rec.requests < cfg.limit
    requires !R.Classify(reply, false).Dropped?
    ensures Continues(run, next) && Valid(cfg, next)
    ensures var s, s', o := Exec(cfg, run), Exec(cfg, next), R.Classify(reply, false);
            && s'.rec.requests == s.rec.requests + 1
            && s'.rec.failures == s.rec.failures + (if o.Failed? then 1 else 0)
            && s'.pcs == s.pcs && s'.reset == s.reset
  {
    next := AdmitOne(cfg, run, w);
    next := CountOne(cfg, next, w, reply);
    next := FinishOne(cfg, next, w);
    BackToIdle(Exec(cfg, run).pcs, w, R.Classify(reply, false));
  }

  const GOOD: R.Reply := R.Response(200, 0, "", false)

  const BAD: R.Reply := R.DialError("refused")

  ghost predicate ResetFree(run: seq<Step>) { forall k | 0 <= k < |run| :: !Resets(run[k]) }

  lemma StillResetFree(run: seq<Step>, next: seq<Step>)
    requires ResetFree(run) && Continues(run, next)
    ensures ResetFree(next)
  {
    forall k | 0 <= k < |next| ensures !Resets(next[k]) {
      assert k < |run| ==> next[k] == run[k];
    }
  }

  /** The pool with the workers from `first` on admitted and the others idle. */
  ghost predicate Queued(cfg: Config, pcs: map<nat, R.Pc>, first: int) {
    && (forall w :: w in pcs <==> 0 <= w < cfg.workers)
    && (forall w | w in pcs :: pcs[w] == if w >= first then R.Admitted else R.Idle)
  }

  /** Which workers are admitted once n requests are counted: none while the limit is not reached, and
      then those that were let through together at the last chance and have not had their turn. */
  function Turn(cfg: Config, n: nat): int {
    if cfg.limit <= 0 || n < cfg.limit then cfg.workers else n - cfg.limit + 1
  }

  /** Without a reset n requests were counted, of which the first f failed, and nobody owes anything. */
  ghost predicate Stocked(cfg: Config, run: seq<Step>, n: nat, f: nat) {
    && Valid(cfg, run) && ResetFree(run) && Exec(cfg, run).reset.NoReset?
    && Exec(cfg, run).rec.requests == n && Exec(cfg, run).rec.failures == (if n < f then n else f)
    && Queued(cfg, Exec(cfg, run).pcs, Turn(cfg, n))
  }

  lemma StockedNothing(cfg: Config, f: nat) returns (run: seq<Step>)
    requires cfg.workers > 0
    ensures Stocked(cfg, run, 0, f)
  {
    run := Nothing(cfg);
  }

  /** Everybody passes the check before anybody counts. */
  lemma {:induction false} AdmitFrom(cfg: Config, run: seq<Step>, k: nat) returns (next: seq<Step>)
    requires Valid(cfg, run) && Exec(cfg, run).reset.NoReset? && k <= cfg.workers
    requires Queued(cfg, Exec(cfg, run).pcs, cfg.workers) && (cfg.limit > 0 ==> Exec(cfg, run).rec.requests < cfg.limit)
    ensures Continues(run, next) && Valid(cfg, next) && Queued(cfg, Exec(cfg, next).pcs, k)
    ensures Exec(cfg, next).rec == Exec(cfg, run).rec && Exec(cfg, next).reset.NoReset?
    decreases cfg.workers - k
  {
    next := run;
    if k < cfg.workers {
      next := AdmitFrom(cfg, run, k + 1);
      next := AdmitOne(cfg, next, k);
    }
  }

  function ReplyOf(n: nat, f: nat): R.Reply { if n < f then BAD else GOOD }

  /** One more request by an admitted worker, from its check to its end. */
  lemma TakeTurn(cfg: Config, run: seq<Step>, w: nat, reply: R.Reply) returns (next: seq<Step>)
    requires Valid(cfg, run) && R.At(Exec(cfg, run), w) && Exec(cfg, run).pcs[w].Admitted?
    requires reply == GOOD || reply == BAD
    ensures Continues(run, next) && Valid(cfg, next) && Exec(cfg, next).reset == Exec(cfg, run).reset
    ensures Exec(cfg, next).pcs == Exec(cfg, run).pcs[w := R.Idle]
    ensures Exec(cfg, next).rec.requests == Exec(cfg, run).rec.requests + 1
    ensures Exec(cfg, next).rec.failures == Exec(cfg, run).rec.failures + if reply == BAD then 1 else 0
  {
    next := CountOne(cfg, run, w, reply);
    next := FinishOne(cfg, next, w);
  }

  lemma QueueMoves(cfg: Config, pcs: map<nat, R.Pc>, w: nat)
    requires Queued(cfg, pcs, w) && w < cfg.workers
    ensures w in pcs && pcs[w] == R.Admitted && Queued(cfg, pcs[w := R.Idle], w + 1)
  {
  }

  lemma TakeLater(cfg: Config, run: seq<Step>, n: nat, f: nat) returns (next: seq<Step>)
    requires Stocked(cfg, run, n, f) && 0 < cfg.limit <= n && n + 1 <= cfg.limit + cfg.workers - 1
    ensures run <= next && Stocked(cfg, next, n + 1, f)
  {
    QueueMoves(cfg, Exec(cfg, run).pcs, n - cfg.limit + 1);
    next := TakeTurn(cfg, run, n - cfg.limit + 1, ReplyOf(n, f));
    StillResetFree(run, next);
  }

  lemma TakeEarly(cfg: Config, run: seq<Step>, n: nat, f: nat) returns (next: seq<Step>)
    requires cfg.workers > 0 && Stocked(cfg, run, n, f) && (cfg.limit > 0 ==> n + 1 < cfg.limit)
    ensures run <= next && Stocked(cfg, next, n + 1, f)
  {
    next := OneRequest(cfg, run, 0, ReplyOf(n, f));
    StillResetFree(run, next);
  }

  lemma TakeLast(cfg: Config, run: seq<Step>, n: nat, f: nat) returns (next: seq<Step>)
    requires cfg.workers > 0 && Stocked(cfg, run, n, f) && n + 1 == cfg.limit
    ensures run <= next && Stocked(cfg, next, n + 1, f)
  {
    var open := AdmitFrom(cfg, run, 0);
    StillResetFree(run, open);
    QueueMoves(cfg, Exec(cfg, open).pcs, 0);
    next := TakeTurn(cfg, open, 0, ReplyOf(n, f));
    StillResetFree(open, next);
  }

  /** Every count up to limit + workers - 1 can be reached, with any number of failures. */
  lemma {:induction false} Grow(cfg: Config, run: seq<Step>, n: nat, m: nat, f: nat) returns (next: seq<Step>)
    requires cfg.workers > 0 && Stocked(cfg, run, n, f) && n <= m && (cfg.limit > 0 ==> m <= cfg.limit + cfg.workers - 1)
    ensures run <= next && Stocked(cfg, next, m, f)
    decreases m
  {
    next := run;
    if n < m {
      next := Grow(cfg, run, n, m - 1, f);
      if cfg.limit <= 0 || m < cfg.limit {
        next := TakeEarly(cfg, next, m - 1, f);
      } else if m == cfg.limit {
        next := TakeLast(cfg, next, m - 1, f);
      } else {
        next := TakeLater(cfg, next, m - 1, f);
      }
    }
  }

  /** The bound is exact: for every limit and pool size some interleaving reaches it. */
  lemma OvershootReached(cfg: Config) returns (run: seq<Step>)
    requires cfg.workers > 0 && cfg.limit > 0
    ensures Valid(cfg, run) && Exec(cfg, run).rec.requests == cfg.limit + cfg.workers - 1
  {
    run := StockedNothing(cfg, 0);
    run := Grow(cfg, run, 0, cfg.limit + cfg.workers - 1, 0);
  }

  /** The admitted workers give up: the run is over. */
  lemma {:induction false} QuitFrom(cfg: Config, run: seq<Step>, k: nat) returns (next: seq<Step>)
    requires Valid(cfg, run) && Exec(cfg, run).reset.NoReset? && Queued(cfg, Exec(cfg, run).pcs, k)
    ensures Valid(cfg, next) && R.AllIdle(Exec(cfg, next)) && Exec(cfg, next).reset.NoReset?
    ensures Exec(cfg, next).rec == Exec(cfg, run).rec
    decreases cfg.workers - k
  {
    next := run;
    if k < cfg.workers {
      next := Extend(cfg, run, Quit(k));
      next := QuitFrom(cfg, next, k + 1);
    }
  }

  lemma BeginReset(cfg: Config, run: seq<Step>) returns (next: seq<Step>)
    requires Valid(cfg, run) && Exec(cfg, run).reset.NoReset? && R.AllIdle(Exec(cfg, run))
    ensures Valid(cfg, next) && Exec(cfg, next).reset == R.RequestsZeroed(Exec(cfg, run).rec.failures)
    ensures Exec(cfg, next).rec.requests == 0 && Exec(cfg, next).rec.failures == Exec(cfg, run).rec.failures
  {
    next := Extend(cfg, run, Core(R.ClearMaps));
    next := Extend(cfg, next, Core(R.ZeroRequests));
  }

  /** A load with that many failures, and then a reset just past its store of `requests`. */
  lemma ReachWindow(cfg: Config, failures: nat) returns (run: seq<Step>)
    requires cfg.workers > 0 && (cfg.limit > 0 ==> failures <= cfg.limit + cfg.workers - 1)
    ensures Valid(cfg, run) && Exec(cfg, run).reset == R.RequestsZeroed(failures)
    ensures Exec(cfg, run).rec.requests == 0 && Exec(cfg, run).rec.failures == failures
  {
    run := StockedNothing(cfg, failures);
    run := Grow(cfg, run, 0, failures, failures);
    run := QuitFrom(cfg, run, Turn(cfg, failures));
    run := BeginReset(cfg, run);
  }
}
