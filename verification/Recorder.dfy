/** The load generator's shared recorder and the steps of `doRequest` that feed it. `success`,
    `failure` and `resetRequestStats` are split at their atomic operations and mutex sections, so a
    run is any interleaving of those. (The reset's last stores, which it does while every worker is
    joined, are one step: nothing else here touches those counters meanwhile.) */
module Recorder {
  import opened Histogram

  /** Keys of the reasons histogram. */
  datatype Kind = ConnClosed(reason: string) | Classified(name: string) | HttpStatus(status: nat)

  /** What came back for one request. */
  datatype Reply =
    | DialError(kind: string)
    | Response(status: nat, bytes: nat, bodyErr: string, truncated: bool)

  datatype Outcome = Succeeded(status: nat, bytes: nat) | Failed(kind: Kind, status: nat) | Dropped

  /** `recordDialError` and `recordHTTPResult`: a run that is over abandons instead of failing. */
  function Classify(r: Reply, runOver: bool): Outcome {
    match r
    case DialError(k) => if runOver then Dropped else Failed(Classified(k), 0)
    case Response(st, n, err, truncated) =>
      if truncated then (if runOver then Dropped else Failed(Classified(err), st))
      else if st >= 500 then Failed(HttpStatus(st), st)
      else Succeeded(st, n)
  }

  /** Where one request goroutine stands. */
  datatype Pc =
    | Idle                       // not inside doRequest
    | Admitted                   // past the loop's checks, doRequest next
    | Requesting                 // inside doRequest, no outcome yet
    | Counting(o: Outcome)       // first counter next: requests, or abandoned
    | Adding(o: Outcome)         // second counter next: bytes, or failures
    | Recording(o: Outcome)      // mutex section next

  /** The recorder's counters and histograms. */
  datatype Rec = Rec(requests: nat, failures: nat, abandoned: nat, bytes: nat, latSeen: nat,
                     status: map<nat, nat>, kinds: map<Kind, nat>, connDrops: nat)

  /** What the goroutines did, which the program does not keep: calls of `doRequest`, requests that
      could not be built, and failures that carried a status. */
  datatype History = History(attempts: nat, unbuildable: nat, statusFailures: nat)

  /** Where `resetRequestStats` stands; it holds the mutex from the first step to the last. */
  datatype ResetPc = NoReset | MapsCleared | RequestsZeroed(failuresBefore: nat) | FailuresZeroed

  datatype Sys = Sys(rec: Rec, hist: History, pcs: map<nat, Pc>, reset: ResetPc)

  datatype Step =
    | Begin(w: nat)
    | Unbuildable(w: nat)
    | Decide(w: nat, reply: Reply, runOver: bool)
    | Count1(w: nat)
    | Count2(w: nat)
    | Record(w: nat)
    | CloseConn(reason: string)
    | ClearMaps
    | ZeroRequests
    | ZeroFailures
    | ZeroRest

  const FRESH: Rec := Rec(0, 0, 0, 0, 0, map[], map[], 0)

  const NO_HISTORY: History := History(0, 0, 0)

  predicate At(s: Sys, w: nat) { w in s.pcs && s.reset.NoReset? }

  predicate AllIdle(s: Sys) { forall w | w in s.pcs :: s.pcs[w].Idle? }

  /** A reset runs between two loads, when every worker has been joined. */
  predicate Enabled(s: Sys, t: Step) {
    match t
    case Begin(w) => At(s, w) && s.pcs[w].Admitted?
    case Unbuildable(w) => At(s, w) && s.pcs[w].Requesting?
    case Decide(w, _, _) => At(s, w) && s.pcs[w].Requesting?
    case Count1(w) => At(s, w) && s.pcs[w].Counting?
    case Count2(w) => At(s, w) && s.pcs[w].Adding?
    case Record(w) => At(s, w) && s.pcs[w].Recording?
    case CloseConn(_) => s.reset.NoReset?
    case ClearMaps => s.reset.NoReset? && AllIdle(s)
    case ZeroRequests => s.reset.MapsCleared?
    case ZeroFailures => s.reset.RequestsZeroed?
    case ZeroRest => s.reset.FailuresZeroed?
  }

  predicate IsReset(t: Step) { t.ClearMaps? || t.ZeroRequests? || t.ZeroFailures? || t.ZeroRest? }

  predicate CarriesStatus(o: Outcome) { o.Failed? && o.status != 0 }

  function Counted1(r: Rec, o: Outcome): Rec {
    if o.Dropped? then r.(abandoned := r.abandoned + 1) else r.(requests := r.requests + 1)
  }

  function Counted2(r: Rec, o: Outcome): Rec {
    match o
    case Succeeded(_, n) => r.(bytes := r.bytes + n)
    case Failed(_, _) => r.(failures := r.failures + 1)
    case Dropped => r
  }

  function Recorded(r: Rec, o: Outcome): Rec {
    match o
    case Succeeded(st, _) => r.(latSeen := r.latSeen + 1, status := Bump(r.status, st))
    case Failed(k, st) => r.(kinds := Bump(r.kinds, k), status := if st != 0 then Bump(r.status, st) else r.status)
    case Dropped => r
  }

  function Dropped1(r: Rec, reason: string): Rec {
    r.(connDrops := r.connDrops + 1, kinds := Bump(r.kinds, ConnClosed(reason)))
  }

  function Move(s: Sys, r: Rec, w: nat, pc: Pc): Sys { s.(rec := r, pcs := s.pcs[w := pc]) }

  function Apply(s: Sys, t: Step): Sys
    requires Enabled(s, t)
  {
    match t
    case Begin(w) => Move(s.(hist := s.hist.(attempts := s.hist.attempts + 1)), s.rec, w, Requesting)
    case Unbuildable(w) => Move(s.(hist := s.hist.(unbuildable := s.hist.unbuildable + 1)), s.rec, w, Idle)
    case Decide(w, reply, runOver) =>
      var o := Classify(reply, runOver);
      var n := s.hist.statusFailures + if CarriesStatus(o) then 1 else 0;
      Move(s.(hist := s.hist.(statusFailures := n)), s.rec, w, Counting(o))
    case Count1(w) =>
      var o := s.pcs[w].o;
      Move(s, Counted1(s.rec, o), w, if o.Dropped? then Idle else Adding(o))
    case Count2(w) => Move(s, Counted2(s.rec, s.pcs[w].o), w, Recording(s.pcs[w].o))
    case Record(w) => Move(s, Recorded(s.rec, s.pcs[w].o), w, Idle)
    case CloseConn(reason) => s.(rec := Dropped1(s.rec, reason))
    case ClearMaps => s.(rec := s.rec.(latSeen := 0, status := map[], kinds := map[], connDrops := 0), reset := MapsCleared)
    case ZeroRequests => s.(rec := s.rec.(requests := 0), reset := RequestsZeroed(s.rec.failures))
    case ZeroFailures => s.(rec := s.rec.(failures := 0), reset := FailuresZeroed)
    case ZeroRest => s.(rec := s.rec.(abandoned := 0, bytes := 0), hist := NO_HISTORY, reset := NoReset)
  }

  // ------------------------------------------------------------- what is still owed

  predicate IsClosedKind(k: Kind) { k.ConnClosed? }

  predicate IsFailureKind(k: Kind) { !k.ConnClosed? }

  /** Counted as a request, but not yet as a failure or a latency sample. */
  predicate OwesResult(pc: Pc) { pc.Adding? || (pc.Recording? && pc.o.Succeeded?) }

  /** Counted as a failure, but not yet under its reason. */
  predicate OwesKind(pc: Pc) { pc.Recording? && pc.o.Failed? }

  /** Failed with a status that is not yet in the status histogram. */
  predicate OwesStatus(pc: Pc) { (pc.Counting? || pc.Adding? || pc.Recording?) && CarriesStatus(pc.o) }

  /** Attempted, but neither counted nor given up. */
  predicate OwesCount(pc: Pc) { pc.Requesting? || pc.Counting? }

  /** Dropped requests stop at the first counter, and no request fails with a connection's reason. */
  predicate Sound(pc: Pc) {
    && (pc.Adding? || pc.Recording? ==> !pc.o.Dropped?)
    && (pc.Counting? || pc.Adding? || pc.Recording? ==> pc.o.Failed? ==> IsFailureKind(pc.o.kind))
  }

  /** The books balance up to what each goroutine still owes. */
  ghost predicate Balanced(r: Rec, h: History, pcs: map<nat, Pc>) {
    && r.requests == r.failures + r.latSeen + Count(pcs, OwesResult)
    && r.failures == Total(r.kinds, IsFailureKind) + Count(pcs, OwesKind)
    && Total(r.status, Any) + Count(pcs, OwesStatus) == r.latSeen + h.statusFailures
    && h.attempts == r.requests + r.abandoned + h.unbuildable + Count(pcs, OwesCount)
  }

  predicate MapsEmpty(r: Rec) { r.latSeen == 0 && r.status == map[] && r.kinds == map[] && r.connDrops == 0 }

  ghost predicate Inv(s: Sys) {
    && (forall w | w in s.pcs :: Sound(s.pcs[w]))
    && Total(s.rec.kinds, IsClosedKind) == s.rec.connDrops
    && match s.reset
       case NoReset => Balanced(s.rec, s.hist, s.pcs)
       case MapsCleared => AllIdle(s) && MapsEmpty(s.rec) && s.rec.failures <= s.rec.requests
       case RequestsZeroed(before) => AllIdle(s) && MapsEmpty(s.rec) && s.rec.requests == 0 && s.rec.failures == before
       case FailuresZeroed => AllIdle(s) && MapsEmpty(s.rec) && s.rec.requests == s.rec.failures == 0
  }

  /** How every debt changes when one goroutine moves. */
  lemma DebtsMove(pcs: map<nat, Pc>, w: nat, pc: Pc)
    requires w in pcs
    ensures var m := pcs[w := pc];
            && Count(m, OwesResult) == Count(pcs, OwesResult) - (if OwesResult(pcs[w]) then 1 else 0) + (if OwesResult(pc) then 1 else 0)
            && Count(m, OwesKind) == Count(pcs, OwesKind) - (if OwesKind(pcs[w]) then 1 else 0) + (if OwesKind(pc) then 1 else 0)
            && Count(m, OwesStatus) == Count(pcs, OwesStatus) - (if OwesStatus(pcs[w]) then 1 else 0) + (if OwesStatus(pc) then 1 else 0)
            && Count(m, OwesCount) == Count(pcs, OwesCount) - (if OwesCount(pcs[w]) then 1 else 0) + (if OwesCount(pc) then 1 else 0)
  {
    CountMove(pcs, w, pc, OwesResult);
    CountMove(pcs, w, pc, OwesKind);
    CountMove(pcs, w, pc, OwesStatus);
    CountMove(pcs, w, pc, OwesCount);
  }

  lemma NoDebts(pcs: map<nat, Pc>)
    requires forall w | w in pcs :: pcs[w].Idle? || pcs[w].Admitted?
    ensures Count(pcs, OwesResult) == Count(pcs, OwesKind) == Count(pcs, OwesStatus) == Count(pcs, OwesCount) == 0
  {
    CountNone(pcs, OwesResult);
    CountNone(pcs, OwesKind);
    CountNone(pcs, OwesStatus);
    CountNone(pcs, OwesCount);
  }

  lemma RecordedTotals(r: Rec, o: Outcome)
    ensures Total(Recorded(r, o).kinds, IsFailureKind) == Total(r.kinds, IsFailureKind) + if o.Failed? && IsFailureKind(o.kind) then 1 else 0
    ensures Total(Recorded(r, o).kinds, IsClosedKind) == Total(r.kinds, IsClosedKind) + if o.Failed? && IsClosedKind(o.kind) then 1 else 0
    ensures Total(Recorded(r, o).status, Any) == Total(r.status, Any) + if o.Succeeded? || CarriesStatus(o) then 1 else 0
  {
    match o
    case Succeeded(st, _) => TotalBump(r.status, st, Any);
    case Failed(k, st) =>
      TotalBump(r.kinds, k, IsFailureKind);
      TotalBump(r.kinds, k, IsClosedKind);
      TotalBump(r.status, st, Any);
    case Dropped =>
  }

  lemma WorkerKeeps(s: Sys, t: Step)
    requires Inv(s) && Enabled(s, t)
    requires t.Begin? || t.Unbuildable? || t.Decide? || t.Count1? || t.Count2? || t.Record?
    ensures Inv(Apply(s, t))
  {
    DebtsMove(s.pcs, t.w, Apply(s, t).pcs[t.w]);
    if t.Record? {
      RecordedTotals(s.rec, s.pcs[t.w].o);
    }
  }

  lemma SharedKeeps(s: Sys, t: Step)
    requires Inv(s) && Enabled(s, t)
    requires t.CloseConn? || IsReset(t)
    ensures Inv(Apply(s, t))
  {
    match t
    case CloseConn(reason) =>
      TotalBump(s.rec.kinds, ConnClosed(reason), IsFailureKind);
      TotalBump(s.rec.kinds, ConnClosed(reason), IsClosedKind);
    case ClearMaps => EmptyTotals();
    case ZeroRequests =>
    case ZeroFailures =>
    case ZeroRest => EmptyTotals(); NoDebts(s.pcs);
  }

  lemma EmptyTotals()
    ensures Total<Kind>(map[], IsClosedKind) == Total<Kind>(map[], IsFailureKind) == Total<nat>(map[], Any) == 0
  {
    assert KeysWhere<Kind>(map[], IsClosedKind) == {};
    assert KeysWhere<Kind>(map[], IsFailureKind) == {};
    assert KeysWhere<nat>(map[], Any) == {};
  }

  lemma StepKeeps(s: Sys, t: Step)
    requires Inv(s) && Enabled(s, t)
    ensures Inv(Apply(s, t))
  {
    if t.CloseConn? || IsReset(t) {
      SharedKeeps(s, t);
    } else {
      WorkerKeeps(s, t);
    }
  }

  /** A new goroutine owes nothing. */
  lemma SpawnKeeps(s: Sys, w: nat)
    requires Inv(s) && s.reset.NoReset? && w !in s.pcs
    ensures Inv(s.(pcs := s.pcs[w := Admitted]))
  {
    CountMove(s.pcs, w, Admitted, OwesResult);
    CountMove(s.pcs, w, Admitted, OwesKind);
    CountMove(s.pcs, w, Admitted, OwesStatus);
    CountMove(s.pcs, w, Admitted, OwesCount);
  }

  lemma InitInv(pcs: map<nat, Pc>)
    requires forall w | w in pcs :: pcs[w].Idle?
    ensures Inv(Sys(FRESH, NO_HISTORY, pcs, NoReset))
  {
    EmptyTotals();
    NoDebts(pcs);
  }

  // ------------------------------------------------------------- after the join

  /** Once every goroutine is out of `doRequest`, nothing is owed and the books balance exactly. */
  lemma JoinedBalances(s: Sys)
    requires Inv(s) && s.reset.NoReset? && forall w | w in s.pcs :: s.pcs[w].Idle? || s.pcs[w].Admitted?
    ensures s.rec.requests - s.rec.failures == s.rec.latSeen
    ensures Total(s.rec.kinds, IsFailureKind) == s.rec.failures && Total(s.rec.kinds, IsClosedKind) == s.rec.connDrops
    ensures Total(s.rec.kinds, Any) == s.rec.failures + s.rec.connDrops
    ensures Total(s.rec.status, Any) == (s.rec.requests - s.rec.failures) + s.hist.statusFailures
    ensures s.hist.attempts == s.rec.requests + s.rec.abandoned + s.hist.unbuildable
  {
    NoDebts(s.pcs);
    TotalParts(s.rec.kinds);
  }

  lemma TotalParts(m: map<Kind, nat>)
    ensures Total(m, Any) == Total(m, IsFailureKind) + Total(m, IsClosedKind)
  {
    var f, c := KeysWhere(m, IsFailureKind), KeysWhere(m, IsClosedKind);
    assert KeysWhere(m, Any) == f + c;
    SumDisjoint(m, f, c);
  }

  // ------------------------------------------------------------- the recorder in place

  /** The recorder object. Each method body line is one atomic operation or one mutex section, in
      source order; the system above interleaves exactly these. */
  class RecorderObject {
    var requests: nat
    var failures: nat
    var abandoned: nat
    var bytes: nat
    var latSeen: nat
    var status: map<nat, nat>
    var kinds: map<Kind, nat>
    var connDrops: nat
    var offered: nat
    var omitted: nat
    var protos: map<string, nat>
    var cfCodes: map<nat, nat>

    function View(): Rec
      reads this
    {
      Rec(requests, failures, abandoned, bytes, latSeen, status, kinds, connDrops)
    }

    constructor ()
      ensures View() == FRESH && offered == omitted == 0 && protos == map[] && cfCodes == map[]
    {
      requests, failures, abandoned, bytes, latSeen, connDrops, offered, omitted := 0, 0, 0, 0, 0, 0, 0, 0;
      status, kinds, protos, cfCodes := map[], map[], map[], map[];
    }

    method Success(st: nat, n: nat)
      modifies this`requests, this`bytes, this`latSeen, this`status
      ensures var o := Succeeded(st, n);
              View() == Recorded(Counted2(Counted1(old(View()), o), o), o)
    {
      requests := requests + 1;
      bytes := bytes + n;
      latSeen, status := latSeen + 1, Bump(status, st);
    }

    method Failure(kind: Kind, st: nat)
      modifies this`requests, this`failures, this`kinds, this`status
      ensures var o := Failed(kind, st);
              View() == Recorded(Counted2(Counted1(old(View()), o), o), o)
    {
      requests := requests + 1;
      failures := failures + 1;
      kinds := Bump(kinds, kind);
      if st != 0 {
        status := Bump(status, st);
      }
    }

    /** `cfCode` is the Cloudflare code found in the body, 0 for none. */
    method RecordResult(r: Reply, runOver: bool, cfCode: nat)
      modifies this`requests, this`failures, this`abandoned, this`bytes, this`latSeen, this`status, this`kinds, this`cfCodes
      ensures var o := Classify(r, runOver);
              && View() == Recorded(Counted2(Counted1(old(View()), o), o), o)
              && cfCodes == if o.Failed? && o.kind.HttpStatus? && cfCode != 0 then Bump(old(cfCodes), cfCode) else old(cfCodes)
    {
      match r
      case DialError(k) =>
        if runOver {
          abandoned := abandoned + 1;
          return;
        }
        Failure(Classified(k), 0);
      case Response(st, n, err, truncated) =>
        if truncated {
          if runOver {
            abandoned := abandoned + 1;
            return;
          }
          Failure(Classified(err), st);
          return;
        }
        if st >= 500 {
          if cfCode != 0 {
            cfCodes := Bump(cfCodes, cfCode);
          }
          Failure(HttpStatus(st), st);
          return;
        }
        Success(st, n);
    }

    method ConnectionClosed(reason: string)
      modifies this`connDrops, this`kinds
      ensures View() == Dropped1(old(View()), reason)
    {
      connDrops := connDrops + 1;
      kinds := Bump(kinds, ConnClosed(reason));
    }

    method ResetRequestStats()
      modifies this
      ensures View() == FRESH && offered == omitted == 0 && protos == map[] && cfCodes == map[]
    {
      latSeen, status, kinds, protos, cfCodes, connDrops := 0, map[], map[], map[], map[], 0;
      requests := 0;
      failures := 0;
      abandoned := 0;
      omitted := 0;
      offered := 0;
      bytes := 0;
    }
  }
}
