/** `runOpen`: one dispatcher offers requests at the paced rate; a semaphore channel bounds how many
    are in flight, and a tick that finds it full is omitted instead of queued. */
module OpenLoop {
  import opened Basics
  import opened Histogram
  import opened Division
  import opened RoundRobin
  import P = Pacer
  import R = Recorder

  function Distance(a: int, b: int): nat { if a < b then b - a else a - b }

  /** `inflight()`: the semaphore's capacity is the permitted value nearest to the one asked for. */
  function Inflight(maxInflight: int, conns: int, workers: int, open: bool): (cap: nat)
    ensures 1 <= cap <= 4096
    ensures var want := if maxInflight > 0 then maxInflight else conns * workers * (if open then 8 else 1);
            forall k | 1 <= k <= 4096 :: Distance(cap, want) <= Distance(k, want)
  {
    if maxInflight > 0 then (if maxInflight > 4096 then 4096 else maxInflight)
    else
      var n := conns * workers * (if open then 8 else 1);
      if n < 1 then 1 else if n > 4096 then 4096 else n
  }

  datatype Config = Config(cap: nat, limit: int, clients: nat, interval: nat)

  /** The settings a load is started with; there is one client a connection. */
  datatype Flags = Flags(maxInflight: int, conns: nat, workers: int, requests: int, interval: nat)

  function ConfigOf(fl: Flags): Config {
    Config(Inflight(fl.maxInflight, fl.conns, fl.workers, true), fl.requests, fl.conns, fl.interval)
  }

  /** `holding` is who occupies a slot of the channel; `offering` is the dispatcher between counting
      an offer and trying for a slot; `conns` lists the connection each started request was given;
      `next` is the pacer's next free slot and `slots` the granted ones that the offers were made at. */
  datatype State = State(sys: R.Sys, offered: nat, omitted: nat, conns: seq<nat>, holding: set<nat>,
                         offering: bool, ended: bool, next: Option<nat>, slots: seq<nat>)

  /** `Offer(now)`: a wait for the pacer that began at `now` has paid off, and the offer is counted. */
  datatype Step = Offer(now: nat) | Stop | Start | Omit | Release(w: nat) | Core(step: R.Step)

  predicate Enabled(cfg: Config, s: State, t: Step) {
    match t
    case Offer(_) => !s.ended && !s.offering && (cfg.limit > 0 ==> s.offered < cfg.limit)
    case Stop => !s.ended && !s.offering
    case Start => s.offering && |s.holding| < cfg.cap
    case Omit => s.offering && |s.holding| >= cfg.cap
    case Release(w) => w in s.holding && w in s.sys.pcs && s.sys.pcs[w].Idle?
    case Core(c) => R.Enabled(s.sys, c) && !R.IsReset(c)
  }

  function Apply(cfg: Config, s: State, t: Step): State
    requires cfg.clients > 0 && Enabled(cfg, s, t)
  {
    match t
    case Offer(now) =>
      var slot := P.Slot(s.next, now);
      s.(offered := s.offered + 1, offering := true, next := Some(slot + cfg.interval), slots := s.slots + [slot])
    case Stop => s.(ended := true)
    case Start =>
      var i := |s.conns|;
      s.(sys := s.sys.(pcs := s.sys.pcs[i := R.Admitted]), conns := s.conns + [i % cfg.clients],
         holding := s.holding + {i}, offering := false)
    case Omit => s.(omitted := s.omitted + 1, offering := false)
    case Release(w) => s.(holding := s.holding - {w})
    case Core(c) => s.(sys := R.Apply(s.sys, c))
  }

  const INIT: State := State(R.Sys(R.FRESH, R.NO_HISTORY, map[], R.NoReset), 0, 0, [], {}, false, false, None, [])

  ghost predicate Valid(cfg: Config, run: seq<Step>)
    requires cfg.clients > 0
    decreases |run|, 0
  {
    run == [] || (Valid(cfg, run[..|run| - 1]) && Enabled(cfg, Exec(cfg, run[..|run| - 1]), run[|run| - 1]))
  }

  ghost function Exec(cfg: Config, run: seq<Step>): State
    requires cfg.clients > 0 && Valid(cfg, run)
    decreases |run|, 1
  {
    if run == [] then INIT else Apply(cfg, Exec(cfg, run[..|run| - 1]), run[|run| - 1])
  }

  predicate Active(pc: R.Pc) { !pc.Idle? }

  predicate Waiting(pc: R.Pc) { pc.Admitted? }

  /** Exactly the started requests have a goroutine, and every one still active holds a slot. */
  ghost predicate Slots(pcs: map<nat, R.Pc>, holding: set<nat>, started: nat) {
    && (forall w :: w in pcs <==> 0 <= w < started)
    && (forall w | w in pcs && Active(pcs[w]) :: w in holding)
    && (forall w | w in holding :: w in pcs)
  }

  lemma SlotTaken(pcs: map<nat, R.Pc>, holding: set<nat>, started: nat)
    requires Slots(pcs, holding, started)
    ensures Slots(pcs[started := R.Admitted], holding + {started}, started + 1)
    ensures |holding + {started}| == |holding| + 1
    ensures Count(pcs[started := R.Admitted], Waiting) == Count(pcs, Waiting) + 1
  {
    CountMove(pcs, started, R.Admitted, Waiting);
  }

  /** Inside a request a goroutine keeps its slot. */
  lemma SlotsMove(pcs: map<nat, R.Pc>, holding: set<nat>, started: nat, w: nat, pc: R.Pc)
    requires Slots(pcs, holding, started) && w in pcs && Active(pcs[w])
    ensures Slots(pcs[w := pc], holding, started)
    ensures Count(pcs[w := pc], Waiting) == Count(pcs, Waiting) - (if Waiting(pcs[w]) then 1 else 0) + if Waiting(pc) then 1 else 0
  {
    CountMove(pcs, w, pc, Waiting);
  }

  ghost predicate Inv(cfg: Config, s: State)
    requires cfg.clients > 0
  {
    R.Inv(s.sys) && s.sys.reset.NoReset? && Dispatched(cfg, s)
  }

  /** The dispatcher's own books. */
  ghost predicate Dispatched(cfg: Config, s: State)
    requires cfg.clients > 0
  {
    && s.offered == s.omitted + |s.conns| + (if s.offering then 1 else 0)
    && (cfg.limit > 0 ==> s.offered <= cfg.limit)
    && |s.holding| <= cfg.cap && Slots(s.sys.pcs, s.holding, |s.conns|)
    && s.sys.hist.attempts + Count(s.sys.pcs, Waiting) == |s.conns|
    && (forall k | 0 <= k < |s.conns| :: s.conns[k] == k % cfg.clients)
  }

  lemma StartKeeps(cfg: Config, s: State)
    requires cfg.clients > 0 && Inv(cfg, s) && Enabled(cfg, s, Start)
    ensures Inv(cfg, Apply(cfg, s, Start))
  {
    R.SpawnKeeps(s.sys, |s.conns|) by { assert |s.conns| !in s.sys.pcs; }
    StartDispatched(cfg, s);
  }

  lemma StartDispatched(cfg: Config, s: State)
    requires cfg.clients > 0 && Dispatched(cfg, s) && Enabled(cfg, s, Start)
    ensures Dispatched(cfg, Apply(cfg, s, Start))
  {
    SlotTaken(s.sys.pcs, s.holding, |s.conns|);
  }

  lemma DispatcherKeeps(cfg: Config, s: State, t: Step)
    requires cfg.clients > 0 && Inv(cfg, s) && Enabled(cfg, s, t) && !t.Core? && !t.Start?
    ensures Inv(cfg, Apply(cfg, s, t))
  {
    if t.Release? {
      CardWithout(s.holding, t.w);
    }
  }

  lemma RequestKeeps(cfg: Config, s: State, t: Step)
    requires cfg.clients > 0 && Inv(cfg, s) && Enabled(cfg, s, t) && t.Core?
    ensures Inv(cfg, Apply(cfg, s, t))
  {
    R.StepKeeps(s.sys, t.step);
    if !t.step.CloseConn? {
      SlotsMove(s.sys.pcs, s.holding, |s.conns|, t.step.w, R.Apply(s.sys, t.step).pcs[t.step.w]);
    }
  }

  lemma {:induction false} ExecKeeps(cfg: Config, run: seq<Step>)
    requires cfg.clients > 0 && Valid(cfg, run)
    ensures Inv(cfg, Exec(cfg, run))
    decreases |run|
  {
    if run == [] {
      R.InitInv(map[]);
      CountNone(INIT.sys.pcs, Waiting);
    } else {
      var s, t := Exec(cfg, run[..|run| - 1]), run[|run| - 1];
      ExecKeeps(cfg, run[..|run| - 1]);
      if t.Core? {
        RequestKeeps(cfg, s, t);
      } else if t.Start? {
        StartKeeps(cfg, s);
      } else {
        DispatcherKeeps(cfg, s, t);
      }
    }
  }

  lemma InFlight(cfg: Config, run: seq<Step>)
    requires cfg.clients > 0 && Valid(cfg, run)
    ensures Count(Exec(cfg, run).sys.pcs, Active) <= |Exec(cfg, run).holding| <= cfg.cap
  {
    ExecKeeps(cfg, run);
    var s := Exec(cfg, run);
    SubsetCard(At(s.sys.pcs, Active), s.holding);
  }

  /** At every step: no more requests in flight than the semaphore holds, which is at most 4096, every
      offer is omitted, started or being placed, and a positive request limit is never exceeded. */
  lemma OffersConserved(fl: Flags, run: seq<Step>)
    requires fl.conns > 0 && Valid(ConfigOf(fl), run)
    ensures var s := Exec(ConfigOf(fl), run);
            && Count(s.sys.pcs, Active) <= |s.holding| <= Inflight(fl.maxInflight, fl.conns, fl.workers, true) <= 4096
            && s.offered == s.omitted + |s.conns| + (if s.offering then 1 else 0)
            && (fl.requests > 0 ==> s.offered <= fl.requests)
  {
    ExecKeeps(ConfigOf(fl), run);
    InFlight(ConfigOf(fl), run);
  }

  /** After the join every offer is accounted for by the recorder. */
  lemma JoinedOffers(cfg: Config, run: seq<Step>)
    requires cfg.clients > 0 && Valid(cfg, run) && Exec(cfg, run).ended && !Exec(cfg, run).offering
    requires Exec(cfg, run).holding == {}
    ensures var s := Exec(cfg, run);
            s.offered == s.omitted + s.sys.rec.requests + s.sys.rec.abandoned + s.sys.hist.unbuildable
  {
    ExecKeeps(cfg, run);
    var s := Exec(cfg, run);
    R.JoinedBalances(s.sys);
    CountNone(s.sys.pcs, Waiting);
  }

  lemma {:induction false} ConnHits(conns: seq<nat>, n: nat, c: nat)
    requires n > 0 && forall k | 0 <= k < |conns| :: conns[k] == k % n
    ensures multiset(conns)[c] == Visits(0, |conns|, n, c)
    decreases |conns|
  {
    if conns != [] {
      var p := conns[..|conns| - 1];
      assert conns == p + [conns[|conns| - 1]];
      ConnHits(p, n, c);
    }
  }

  /** Started requests are spread over the connections with counts that differ by at most one. */
  lemma StartsSpread(cfg: Config, run: seq<Step>, a: nat, b: nat)
    requires cfg.clients > 0 && Valid(cfg, run) && a < cfg.clients && b < cfg.clients
    ensures var starts := multiset(Exec(cfg, run).conns); starts[a] <= starts[b] + 1
    ensures forall k | 0 <= k < |Exec(cfg, run).conns| :: Exec(cfg, run).conns[k] == k % cfg.clients
  {
    ExecKeeps(cfg, run);
    var m, n := |Exec(cfg, run).conns|, cfg.clients;
    ConnHits(Exec(cfg, run).conns, n, a);
    ConnHits(Exec(cfg, run).conns, n, b);
    VisitsFair(0, m, n, a);
    VisitsFair(0, m, n, b);
    CeilNearFloor(m, n);
  }

  lemma CeilNearFloor(m: nat, n: nat)
    requires n > 0
    ensures (m + n - 1) / n <= m / n + 1
  {
    DivAddOne(m, n);
    DivMono(m + n - 1, m + n, n);
  }

  // ------------------------------------------------------------- the offered rate

  /** Slots an interval apart, the next free one an interval after the last. */
  ghost predicate PacedBy(interval: nat, next: Option<nat>, slots: seq<nat>) {
    P.Spaced(slots, interval) && (slots != [] ==> next == Some(slots[|slots| - 1] + interval))
  }

  lemma SlotPaced(interval: nat, next: Option<nat>, slots: seq<nat>, now: nat)
    requires PacedBy(interval, next, slots)
    ensures var slot := P.Slot(next, now); PacedBy(interval, Some(slot + interval), slots + [slot])
  {
  }

  lemma {:induction false} ExecPaced(cfg: Config, run: seq<Step>)
    requires cfg.clients > 0 && Valid(cfg, run)
    ensures var s := Exec(cfg, run); |s.slots| == s.offered && PacedBy(cfg.interval, s.next, s.slots)
    decreases |run|
  {
    if run != [] {
      var s, t := Exec(cfg, run[..|run| - 1]), run[|run| - 1];
      ExecPaced(cfg, run[..|run| - 1]);
      if t.Offer? {
        SlotPaced(cfg.interval, s.next, s.slots, t.now);
      }
    }
  }

  /** However requests fare, any window of width W sees at most W / interval + 1 offers, each made at
      its slot. */
  lemma OfferRate(cfg: Config, run: seq<Step>, a: nat, width: nat)
    requires cfg.clients > 0 && Valid(cfg, run) && cfg.interval > 0
    ensures var s := Exec(cfg, run);
            |s.slots| == s.offered && P.CountIn(s.slots, a, a + width) <= width / cfg.interval + 1
  {
    ExecPaced(cfg, run);
    P.SpacedRate(Exec(cfg, run).slots, cfg.interval, a, width);
  }

  // ------------------------------------------------------------- what is omitted

  lemma {:induction false} PrefixValid(cfg: Config, run: seq<Step>, k: nat)
    requires cfg.clients > 0 && Valid(cfg, run) && k <= |run|
    ensures Valid(cfg, run[..k])
    decreases |run|
  {
    if k == |run| {
      assert run[..k] == run;
    } else {
      PrefixValid(cfg, run[..|run| - 1], k);
      assert run[..|run| - 1][..k] == run[..k];
    }
  }

  lemma {:induction false} StepEnabled(cfg: Config, run: seq<Step>, k: nat)
    requires cfg.clients > 0 && Valid(cfg, run) && k < |run|
    ensures Valid(cfg, run[..k]) && Enabled(cfg, Exec(cfg, run[..k]), run[k])
    decreases |run|
  {
    PrefixValid(cfg, run, k);
    var p := run[..|run| - 1];
    if k == |run| - 1 {
      assert run[..k] == p;
    } else {
      StepEnabled(cfg, p, k);
      assert p[..k] == run[..k];
    }
  }

  /** An offer that is placed is omitted if and only if as many slots are held at that instant as
      `inflight()` gives for the settings; with any room at all it is started. */
  lemma OmittedIff(fl: Flags, run: seq<Step>, k: nat)
    requires fl.conns > 0 && Valid(ConfigOf(fl), run) && k < |run| && (run[k].Start? || run[k].Omit?)
    ensures Valid(ConfigOf(fl), run[..k])
    ensures var held := |Exec(ConfigOf(fl), run[..k]).holding|;
            && (run[k].Omit? <==> held == Inflight(fl.maxInflight, fl.conns, fl.workers, true))
            && (run[k].Start? <==> held < Inflight(fl.maxInflight, fl.conns, fl.workers, true))
  {
    StepEnabled(ConfigOf(fl), run, k);
    InFlight(ConfigOf(fl), run[..k]);
  }

  function CountSteps(run: seq<Step>, p: Step -> bool): nat {
    if run == [] then 0 else CountSteps(run[..|run| - 1], p) + if p(run[|run| - 1]) then 1 else 0
  }

  predicate IsOffer(t: Step) { t.Offer? }
  predicate IsStart(t: Step) { t.Start? }
  predicate IsOmit(t: Step) { t.Omit? }

  lemma {:induction false} CountersAreSteps(cfg: Config, run: seq<Step>)
    requires cfg.clients > 0 && Valid(cfg, run)
    ensures var s := Exec(cfg, run);
            s.offered == CountSteps(run, IsOffer) && |s.conns| == CountSteps(run, IsStart) && s.omitted == CountSteps(run, IsOmit)
    decreases |run|
  {
    if run != [] {
      CountersAreSteps(cfg, run[..|run| - 1]);
    }
  }

  /** There was room at every moment. */
  ghost predicate AlwaysRoom(cfg: Config, run: seq<Step>)
    requires cfg.clients > 0 && Valid(cfg, run)
    decreases |run|
  {
    |Exec(cfg, run).holding| < cfg.cap && (run == [] || AlwaysRoom(cfg, run[..|run| - 1]))
  }

  /** Nothing is omitted while fewer slots were ever held than there are. */
  lemma {:induction false} RoomOmitsNothing(cfg: Config, run: seq<Step>)
    requires cfg.clients > 0 && Valid(cfg, run) && AlwaysRoom(cfg, run)
    ensures Exec(cfg, run).omitted == 0
    decreases |run|
  {
    if run != [] {
      RoomOmitsNothing(cfg, run[..|run| - 1]);
    }
  }

  // ------------------------------------------------------------- runs that serve everything, and that fill up

  lemma Nothing(cfg: Config) returns (run: seq<Step>)
    requires cfg.clients > 0
    ensures Valid(cfg, run) && Exec(cfg, run) == INIT
  {
    run := seq(0, i => Stop);
  }

  lemma Extend(cfg: Config, run: seq<Step>, t: Step) returns (next: seq<Step>)
    requires cfg.clients > 0 && Valid(cfg, run) && Enabled(cfg, Exec(cfg, run), t)
    ensures Valid(cfg, next) && Exec(cfg, next) == Apply(cfg, Exec(cfg, run), t)
  {
    next := run + [t];
    assert next[..|next| - 1] == run;
  }

  /** One offer that finds room. */
  lemma OneStart(cfg: Config, run: seq<Step>) returns (next: seq<Step>)
    requires cfg.clients > 0 && Valid(cfg, run)
    requires var s := Exec(cfg, run); !s.ended && !s.offering && |s.holding| < cfg.cap && (cfg.limit > 0 ==> s.offered < cfg.limit)
    ensures Valid(cfg, next)
    ensures var s, s' := Exec(cfg, run), Exec(cfg, next);
            && s'.offered == s.offered + 1 && s'.omitted == s.omitted && !s'.offering && !s'.ended
            && |s'.conns| == |s.conns| + 1 && s'.holding == s.holding + {|s.conns|}
            && s'.sys == s.sys.(pcs := s.sys.pcs[|s.conns| := R.Admitted])
  {
    next := Extend(cfg, run, Offer(0));
    next := Extend(cfg, next, Start);
  }

  const GOOD: R.Reply := R.Response(200, 0, "", false)

  /** The request is served and its slot released. */
  lemma OneServed(cfg: Config, run: seq<Step>, w: nat) returns (next: seq<Step>)
    requires cfg.clients > 0 && Valid(cfg, run)
    requires var s := Exec(cfg, run); R.At(s.sys, w) && s.sys.pcs[w].Admitted? && w in s.holding
    ensures Valid(cfg, next)
    ensures var s, s' := Exec(cfg, run), Exec(cfg, next);
            && s'.offered == s.offered && s'.omitted == s.omitted && s'.offering == s.offering && s'.ended == s.ended
            && s'.conns == s.conns && s'.holding == s.holding - {w} && s'.sys.reset == s.sys.reset
            && s'.sys.rec.requests == s.sys.rec.requests + 1 && s'.sys.rec.latSeen == s.sys.rec.latSeen + 1
  {
    next := OneCounted(cfg, run, w);
    next := Extend(cfg, next, Core(R.Count2(w)));
    next := Extend(cfg, next, Core(R.Record(w)));
    next := Extend(cfg, next, Release(w));
  }

  lemma OneCounted(cfg: Config, run: seq<Step>, w: nat) returns (next: seq<Step>)
    requires cfg.clients > 0 && Valid(cfg, run)
    requires var s := Exec(cfg, run); R.At(s.sys, w) && s.sys.pcs[w].Admitted? && w in s.holding
    ensures Valid(cfg, next)
    ensures var s, s' := Exec(cfg, run), Exec(cfg, next);
            && s' == s.(sys := s'.sys) && R.At(s'.sys, w) && s'.sys.pcs[w] == R.Adding(R.Succeeded(200, 0)) && s'.sys.reset == s.sys.reset
            && s'.sys.rec.requests == s.sys.rec.requests + 1 && s'.sys.rec.latSeen == s.sys.rec.latSeen
  {
    next := Extend(cfg, run, Core(R.Begin(w)));
    next := Extend(cfg, next, Core(R.Decide(w, GOOD, false)));
    next := Extend(cfg, next, Core(R.Count1(w)));
  }

  /** For every number of offers the limit allows there is a run in which all are started and served and
      none is omitted, whatever the settings: even one slot is enough if requests come back in time. */
  lemma {:induction false} AllServed(fl: Flags, n: nat) returns (run: seq<Step>)
    requires fl.conns > 0 && (fl.requests > 0 ==> n <= fl.requests)
    ensures Valid(ConfigOf(fl), run)
    ensures var s := Exec(ConfigOf(fl), run);
            && s.offered == |s.conns| == s.sys.rec.requests == s.sys.rec.latSeen == n && s.omitted == 0
            && s.holding == {} && !s.offering && !s.ended && s.sys.reset.NoReset?
  {
    var cfg := ConfigOf(fl);
    if n == 0 {
      run := Nothing(cfg);
    } else {
      run := AllServed(fl, n - 1);
      ghost var before := Exec(cfg, run);
      run := OneStart(cfg, run);
      run := OneServed(cfg, run, |before.conns|);
    }
  }

  /** Requests that do not come back fill the slots one by one. */
  lemma {:induction false} Filled(fl: Flags, n: nat) returns (run: seq<Step>)
    requires fl.conns > 0 && (fl.requests > 0 ==> n <= fl.requests) && n <= Inflight(fl.maxInflight, fl.conns, fl.workers, true)
    ensures Valid(ConfigOf(fl), run)
    ensures var s := Exec(ConfigOf(fl), run);
            s.offered == |s.conns| == |s.holding| == n && s.omitted == 0 && !s.offering && !s.ended
  {
    var cfg := ConfigOf(fl);
    if n == 0 {
      run := Nothing(cfg);
    } else {
      run := Filled(fl, n - 1);
      ghost var before := Exec(cfg, run);
      NewGoroutine(cfg, run);
      run := OneStart(cfg, run);
      CardWithout(Exec(cfg, run).holding, |before.conns|);
      assert Exec(cfg, run).holding - {|before.conns|} == before.holding;
    }
  }

  lemma NewGoroutine(cfg: Config, run: seq<Step>)
    requires cfg.clients > 0 && Valid(cfg, run)
    ensures |Exec(cfg, run).conns| !in Exec(cfg, run).holding
  {
    ExecKeeps(cfg, run);
  }

  /** And then the next offer is omitted. */
  lemma FullOmits(fl: Flags) returns (run: seq<Step>)
    requires fl.conns > 0 && (fl.requests > 0 ==> fl.requests > Inflight(fl.maxInflight, fl.conns, fl.workers, true))
    ensures Valid(ConfigOf(fl), run)
    ensures var s := Exec(ConfigOf(fl), run);
            && |s.holding| == |s.conns| == Inflight(fl.maxInflight, fl.conns, fl.workers, true)
            && s.omitted == 1 && s.offered == |s.conns| + 1
  {
    var cfg := ConfigOf(fl);
    run := Filled(fl, cfg.cap);
    run := Extend(cfg, run, Offer(0));
    run := Extend(cfg, run, Omit);
  }
}
