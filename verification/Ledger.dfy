/** What the recorder's books say, reply by reply: every counter and every histogram entry is the number
    of replies (or closed connections) of its own kind since the last reset, up to what each goroutine
    still owes to that very entry. */
module Ledger {
  import opened Histogram
  import opened Traces
  import R = Recorder
  import C = ClosedLoop
  import O = OpenLoop

  datatype Book = Requests | Failures | Abandoned | Latencies | Drops | Status(st: nat) | Reason(k: R.Kind)

  // ------------------------------------------------------------- which replies belong where

  /** No whole response came back. */
  predicate Erred(r: R.Reply) { r.DialError? || r.truncated }

  predicate ServerError(r: R.Reply) { r.Response? && !r.truncated && r.status >= 500 }

  predicate Served(r: R.Reply) { r.Response? && !r.truncated && r.status < 500 }

  /** `over`: the run had ended when the reply was looked at. */
  predicate Fails(r: R.Reply, over: bool) { ServerError(r) || (Erred(r) && !over) }

  predicate Belongs(r: R.Reply, over: bool, b: Book) {
    match b
    case Requests => Served(r) || Fails(r, over)
    case Failures => Fails(r, over)
    case Abandoned => Erred(r) && over
    case Latencies => Served(r)
    case Drops => false
    case Status(st) => r.Response? && r.status == st && (Served(r) || (Fails(r, over) && st != 0))
    case Reason(k) =>
      match k
      case HttpStatus(st) => ServerError(r) && r.status == st
      case Classified(name) => Erred(r) && !over && name == (if r.DialError? then r.kind else r.bodyErr)
      case ConnClosed(_) => false
  }

  /** A step that enters something in a book. */
  predicate Enters(m: Move, b: Book) {
    && m.Atomic?
    && match m.step
       case Decide(_, r, over) => Belongs(r, over, b)
       case CloseConn(reason) => b == Drops || b == Reason(R.ConnClosed(reason))
       case _ => false
  }

  predicate Clears(m: Move) { m.Atomic? && m.step.ClearMaps? }

  /** Entries made before position j, since the last reset. */
  ghost function Entries(tr: Trace, j: nat, b: Book): nat
    requires j <= |tr.moves|
  {
    if j == 0 || Clears(tr.moves[j - 1]) then 0 else Entries(tr, j - 1, b) + if Enters(tr.moves[j - 1], b) then 1 else 0
  }

  // ------------------------------------------------------------- what the recorder holds and is owed

  function Get<K>(m: map<K, nat>, k: K): nat { if k in m then m[k] else 0 }

  function Amount(r: R.Rec, b: Book): nat {
    match b
    case Requests => r.requests
    case Failures => r.failures
    case Abandoned => r.abandoned
    case Latencies => r.latSeen
    case Drops => r.connDrops
    case Status(st) => Get(r.status, st)
    case Reason(k) => Get(r.kinds, k)
  }

  predicate Decided(pc: R.Pc) { pc.Counting? || pc.Adding? || pc.Recording? }

  /** One entry is still to be made in this book by a goroutine that stands here. */
  predicate Due(pc: R.Pc, b: Book) {
    match b
    case Requests => pc.Counting? && !pc.o.Dropped?
    case Abandoned => pc.Counting? && pc.o.Dropped?
    case Failures => (pc.Counting? || pc.Adding?) && pc.o.Failed?
    case Latencies => Decided(pc) && pc.o.Succeeded?
    case Drops => false
    case Status(st) => Decided(pc) && !pc.o.Dropped? && pc.o.status == st && (pc.o.Failed? ==> st != 0)
    case Reason(k) => Decided(pc) && pc.o.Failed? && pc.o.kind == k
  }

  ghost function Owing(b: Book): R.Pc -> bool { pc => Due(pc, b) }

  /** Held plus owed is entered. During a reset nothing has been entered. */
  ghost predicate Kept(s: R.Sys, b: Book, e: nat) {
    if s.reset.NoReset? then Amount(s.rec, b) + Count(s.pcs, Owing(b)) == e else e == 0
  }

  lemma DueMoves(pcs: map<nat, R.Pc>, w: nat, pc: R.Pc, b: Book)
    requires w in pcs
    ensures Count(pcs[w := pc], Owing(b)) == Count(pcs, Owing(b)) - (if Due(pcs[w], b) then 1 else 0) + if Due(pc, b) then 1 else 0
  {
    CountMove(pcs, w, pc, Owing(b));
  }

  lemma NothingDue(pcs: map<nat, R.Pc>, b: Book)
    requires forall w | w in pcs :: !Inside(pcs[w])
    ensures Count(pcs, Owing(b)) == 0
  {
    CountNone(pcs, Owing(b));
  }

  lemma SameDue(pcs: map<nat, R.Pc>, pcs': map<nat, R.Pc>, b: Book)
    requires SameInside(pcs, pcs')
    ensures Count(pcs, Owing(b)) == Count(pcs', Owing(b))
  {
    assert At(pcs, Owing(b)) == At(pcs', Owing(b));
  }

  // ------------------------------------------------------------- one step at a time

  /** The outcome decided on owes one entry to exactly the books the reply belongs to. */
  lemma DecisionDue(r: R.Reply, over: bool, b: Book)
    ensures Due(R.Counting(R.Classify(r, over)), b) <==> Belongs(r, over, b)
  {
  }

  /** The first counter pays the requests or the abandoned. */
  lemma PaidFirst(r: R.Rec, o: R.Outcome, b: Book)
    ensures Amount(R.Counted1(r, o), b) == Amount(r, b) + if b == (if o.Dropped? then Abandoned else Requests) then 1 else 0
  {
  }

  lemma PaidSecond(r: R.Rec, o: R.Outcome, b: Book)
    ensures Amount(R.Counted2(r, o), b) == Amount(r, b) + if b == Failures && o.Failed? then 1 else 0
  {
  }

  lemma PaidLast(r: R.Rec, o: R.Outcome, b: Book)
    requires !o.Dropped?
    ensures Amount(R.Recorded(r, o), b)
         == Amount(r, b) + if !b.Failures? && Due(R.Recording(o), b) then 1 else 0
  {
  }

  lemma DecideKept(s: R.Sys, w: nat, r: R.Reply, over: bool, b: Book, e: nat)
    requires R.Enabled(s, R.Decide(w, r, over)) && Kept(s, b, e)
    ensures Kept(R.Apply(s, R.Decide(w, r, over)), b, e + if Belongs(r, over, b) then 1 else 0)
  {
    DecisionDue(r, over, b);
    DueMoves(s.pcs, w, R.Counting(R.Classify(r, over)), b);
  }

  lemma Count1Kept(s: R.Sys, w: nat, b: Book, e: nat)
    requires R.Enabled(s, R.Count1(w)) && Kept(s, b, e)
    ensures Kept(R.Apply(s, R.Count1(w)), b, e)
  {
    var o := s.pcs[w].o;
    PaidFirst(s.rec, o, b);
    DueMoves(s.pcs, w, if o.Dropped? then R.Idle else R.Adding(o), b);
  }

  lemma Count2Kept(s: R.Sys, w: nat, b: Book, e: nat)
    requires R.Enabled(s, R.Count2(w)) && Kept(s, b, e)
    ensures Kept(R.Apply(s, R.Count2(w)), b, e)
  {
    var o := s.pcs[w].o;
    PaidSecond(s.rec, o, b);
    DueMoves(s.pcs, w, R.Recording(o), b);
  }

  lemma RecordKept(s: R.Sys, w: nat, b: Book, e: nat)
    requires R.Enabled(s, R.Record(w)) && Kept(s, b, e) && !s.pcs[w].o.Dropped?
    ensures Kept(R.Apply(s, R.Record(w)), b, e)
  {
    var o := s.pcs[w].o;
    PaidLast(s.rec, o, b);
    DueMoves(s.pcs, w, R.Idle, b);
  }

  lemma OutsideKept(s: R.Sys, t: R.Step, b: Book, e: nat)
    requires R.Enabled(s, t) && Kept(s, b, e) && (t.Begin? || t.Unbuildable?)
    ensures Kept(R.Apply(s, t), b, e)
  {
    DueMoves(s.pcs, t.w, if t.Begin? then R.Requesting else R.Idle, b);
  }

  lemma CloseKept(s: R.Sys, reason: string, b: Book, e: nat)
    requires R.Enabled(s, R.CloseConn(reason)) && Kept(s, b, e)
    ensures Kept(R.Apply(s, R.CloseConn(reason)), b, e + if b == Drops || b == Reason(R.ConnClosed(reason)) then 1 else 0)
  {
  }

  lemma ResetKept(s: R.Sys, t: R.Step, b: Book, e: nat)
    requires R.Enabled(s, t) && R.Inv(s) && Kept(s, b, e) && R.IsReset(t)
    ensures Kept(R.Apply(s, t), b, if t.ClearMaps? then 0 else e)
  {
    if t.ZeroRest? {
      NothingDue(s.pcs, b);
    }
  }

  lemma StepKept(s: R.Sys, t: R.Step, b: Book, e: nat)
    requires R.Enabled(s, t) && R.Inv(s) && Kept(s, b, e)
    ensures Kept(R.Apply(s, t), b, if t.ClearMaps? then 0 else e + if Enters(Atomic(t), b) then 1 else 0)
  {
    match t
    case Begin(w) => OutsideKept(s, t, b, e);
    case Unbuildable(w) => OutsideKept(s, t, b, e);
    case Decide(w, r, over) => DecideKept(s, w, r, over, b, e);
    case Count1(w) => Count1Kept(s, w, b, e);
    case Count2(w) => Count2Kept(s, w, b, e);
    case Record(w) => SoundAt(s, w); RecordKept(s, w, b, e);
    case CloseConn(reason) => CloseKept(s, reason, b, e);
    case _ => ResetKept(s, t, b, e);
  }

  lemma SoundAt(s: R.Sys, w: nat)
    requires R.Inv(s) && w in s.pcs
    ensures s.pcs[w].Recording? ==> !s.pcs[w].o.Dropped?
  {
    assert R.Sound(s.pcs[w]);
  }

  // ------------------------------------------------------------- over a trace

  /** A trace that starts with a fresh recorder and nobody inside a request. */
  ghost predicate Opens(tr: Trace) {
    && IsTrace(tr) && tr.states[0].rec == R.FRESH && tr.states[0].reset.NoReset?
    && forall w | w in tr.states[0].pcs :: !Inside(tr.states[0].pcs[w])
  }

  lemma MoveKept(s: R.Sys, m: Move, s': R.Sys, b: Book, e: nat)
    requires Leads(s, m, s') && R.Inv(s) && Kept(s, b, e)
    ensures Kept(s', b, if Clears(m) then 0 else e + if Enters(m, b) then 1 else 0)
  {
    if m.Atomic? {
      StepKept(s, m.step, b, e);
    } else {
      SameDue(s.pcs, s'.pcs, b);
    }
  }

  /** Every move of the trace keeps the book. */
  ghost predicate MovesKeep(tr: Trace, b: Book)
    requires |tr.states| == |tr.moves| + 1
  {
    forall k, e: nat | 0 <= k < |tr.moves| && Kept(tr.states[k], b, e) :: Kept(tr.states[k + 1], b, After(tr, k, b, e))
  }

  ghost function After(tr: Trace, k: nat, b: Book, e: nat): nat
    requires k < |tr.moves|
  {
    if Clears(tr.moves[k]) then 0 else e + if Enters(tr.moves[k], b) then 1 else 0
  }

  lemma TraceKeeps(tr: Trace, b: Book)
    requires IsTrace(tr)
    ensures MovesKeep(tr, b)
  {
    forall k, e: nat | 0 <= k < |tr.moves| && Kept(tr.states[k], b, e) ensures Kept(tr.states[k + 1], b, After(tr, k, b, e)) {
      MoveKept(tr.states[k], tr.moves[k], tr.states[k + 1], b, e);
    }
  }

  lemma {:induction false} KeptUpTo(tr: Trace, j: nat, b: Book)
    requires |tr.states| == |tr.moves| + 1 && j <= |tr.moves| && MovesKeep(tr, b) && Kept(tr.states[0], b, 0)
    ensures Kept(tr.states[j], b, Entries(tr, j, b))
    decreases j
  {
    if j > 0 {
      var k := j - 1;
      KeptUpTo(tr, k, b);
      assert Kept(tr.states[k + 1], b, After(tr, k, b, Entries(tr, k, b)));
    }
  }

  lemma StartKept(s: R.Sys, b: Book)
    requires s.rec == R.FRESH && s.reset.NoReset? && forall w | w in s.pcs :: !Inside(s.pcs[w])
    ensures Kept(s, b, 0)
  {
    NothingDue(s.pcs, b);
  }

  /** At every position of every trace, for every book. */
  lemma BookKept(tr: Trace, j: nat, b: Book)
    requires Opens(tr) && j <= |tr.moves|
    ensures Kept(tr.states[j], b, Entries(tr, j, b))
  {
    StartKept(tr.states[0], b);
    TraceKeeps(tr, b);
    KeptUpTo(tr, j, b);
  }

  /** Once nobody is inside a request, each book is exact. */
  lemma BookExact(tr: Trace, j: nat, b: Book)
    requires Opens(tr) && j <= |tr.moves| && tr.states[j].reset.NoReset?
    requires forall w | w in tr.states[j].pcs :: !Inside(tr.states[j].pcs[w])
    ensures Amount(tr.states[j].rec, b) == Entries(tr, j, b)
  {
    BookKept(tr, j, b);
    NothingDue(tr.states[j].pcs, b);
  }

  lemma {:induction false} NoEntries(tr: Trace, j: nat, b: Book)
    requires j <= |tr.moves| && forall k | 0 <= k < j :: !Enters(tr.moves[k], b)
    ensures Entries(tr, j, b) == 0
    decreases j
  {
    if j > 0 {
      NoEntries(tr, j - 1, b);
    }
  }

  /** A status below 500 is never a reason for failure, at any time. */
  lemma NoReasonBelow500(tr: Trace, j: nat, st: nat)
    requires Opens(tr) && j <= |tr.moves| && st < 500 && tr.states[j].reset.NoReset?
    ensures Get(tr.states[j].rec.kinds, R.HttpStatus(st)) == 0
  {
    var b := Reason(R.HttpStatus(st));
    BookKept(tr, j, b);
    NoEntries(tr, j, b);
    assert Amount(tr.states[j].rec, b) <= Entries(tr, j, b);
  }

  // ------------------------------------------------------------- bytes

  function DueBytes(pc: R.Pc): nat { if (pc.Counting? || pc.Adding?) && pc.o.Succeeded? then pc.o.bytes else 0 }

  function DueMap(pcs: map<nat, R.Pc>): map<nat, nat> { map w | w in pcs :: DueBytes(pcs[w]) }

  ghost function OwedBytes(pcs: map<nat, R.Pc>): nat { SumOver(DueMap(pcs), At(pcs, Inside)) }

  lemma SumWithout(m: map<nat, nat>, ks: set<nat>, w: nat)
    requires ks <= m.Keys && w in m && (w !in ks ==> m[w] == 0)
    ensures SumOver(m, ks) == m[w] + SumOver(m, ks - {w})
  {
    if w in ks {
      SumSplit(m, ks, w);
    } else {
      assert ks - {w} == ks;
    }
  }

  lemma OwedMoves(pcs: map<nat, R.Pc>, w: nat, pc: R.Pc)
    requires w in pcs
    ensures OwedBytes(pcs[w := pc]) == OwedBytes(pcs) - DueBytes(pcs[w]) + DueBytes(pc)
  {
    var pcs' := pcs[w := pc];
    var ks, ks' := At(pcs, Inside), At(pcs', Inside);
    SumWithout(DueMap(pcs), ks, w);
    SumWithout(DueMap(pcs'), ks', w);
    assert ks - {w} == ks' - {w};
    SumAgree(DueMap(pcs), DueMap(pcs'), ks - {w});
  }

  lemma SameOwed(pcs: map<nat, R.Pc>, pcs': map<nat, R.Pc>)
    requires SameInside(pcs, pcs')
    ensures OwedBytes(pcs) == OwedBytes(pcs')
  {
    assert At(pcs, Inside) == At(pcs', Inside);
    SumAgree(DueMap(pcs), DueMap(pcs'), At(pcs, Inside));
  }

  lemma NothingOwed(pcs: map<nat, R.Pc>)
    requires forall w | w in pcs :: !Inside(pcs[w])
    ensures OwedBytes(pcs) == 0
  {
    assert At(pcs, Inside) == {};
  }

  predicate ServesBytes(m: Move) { m.Atomic? && m.step.Decide? && Served(m.step.reply) }

  /** Bytes of the responses served before position j, since the last reset. */
  ghost function BytesServed(tr: Trace, j: nat): nat
    requires j <= |tr.moves|
  {
    if j == 0 || Clears(tr.moves[j - 1]) then 0
    else BytesServed(tr, j - 1) + if ServesBytes(tr.moves[j - 1]) then tr.moves[j - 1].step.reply.bytes else 0
  }

  ghost predicate BytesKept(s: R.Sys, e: nat) {
    if s.reset.NoReset? then s.rec.bytes + OwedBytes(s.pcs) == e else e == 0
  }

  lemma StepBytes(s: R.Sys, t: R.Step, e: nat)
    requires R.Enabled(s, t) && R.Inv(s) && BytesKept(s, e)
    ensures BytesKept(R.Apply(s, t), if t.ClearMaps? then 0 else e + if ServesBytes(Atomic(t)) then t.reply.bytes else 0)
  {
    if R.IsReset(t) {
      ResetBytes(s, t, e);
    } else if !t.CloseConn? {
      OwedMoves(s.pcs, t.w, R.Apply(s, t).pcs[t.w]);
    }
  }

  lemma ResetBytes(s: R.Sys, t: R.Step, e: nat)
    requires R.Enabled(s, t) && R.Inv(s) && BytesKept(s, e) && R.IsReset(t)
    ensures BytesKept(R.Apply(s, t), if t.ClearMaps? then 0 else e)
  {
    if t.ZeroRest? {
      NothingOwed(s.pcs);
    }
  }

  lemma MoveBytes(s: R.Sys, m: Move, s': R.Sys, e: nat)
    requires Leads(s, m, s') && R.Inv(s) && BytesKept(s, e)
    ensures BytesKept(s', if Clears(m) then 0 else e + if ServesBytes(m) then m.step.reply.bytes else 0)
  {
    if m.Atomic? {
      StepBytes(s, m.step, e);
    } else {
      SameOwed(s.pcs, s'.pcs);
    }
  }

  ghost predicate MovesKeepBytes(tr: Trace)
    requires |tr.states| == |tr.moves| + 1
  {
    forall k, e: nat | 0 <= k < |tr.moves| && BytesKept(tr.states[k], e) :: BytesKept(tr.states[k + 1], BytesAfter(tr, k, e))
  }

  ghost function BytesAfter(tr: Trace, k: nat, e: nat): nat
    requires k < |tr.moves|
  {
    if Clears(tr.moves[k]) then 0 else e + if ServesBytes(tr.moves[k]) then tr.moves[k].step.reply.bytes else 0
  }

  lemma TraceKeepsBytes(tr: Trace)
    requires IsTrace(tr)
    ensures MovesKeepBytes(tr)
  {
    forall k, e: nat | 0 <= k < |tr.moves| && BytesKept(tr.states[k], e) ensures BytesKept(tr.states[k + 1], BytesAfter(tr, k, e)) {
      MoveBytes(tr.states[k], tr.moves[k], tr.states[k + 1], e);
    }
  }

  lemma {:induction false} BytesUpTo(tr: Trace, j: nat)
    requires |tr.states| == |tr.moves| + 1 && j <= |tr.moves| && MovesKeepBytes(tr) && BytesKept(tr.states[0], 0)
    ensures BytesKept(tr.states[j], BytesServed(tr, j))
    decreases j
  {
    if j > 0 {
      var k := j - 1;
      BytesUpTo(tr, k);
      assert BytesKept(tr.states[k + 1], BytesAfter(tr, k, BytesServed(tr, k)));
    }
  }

  lemma BytesInTrace(tr: Trace, j: nat)
    requires Opens(tr) && j <= |tr.moves|
    ensures BytesKept(tr.states[j], BytesServed(tr, j))
  {
    NothingOwed(tr.states[0].pcs);
    TraceKeepsBytes(tr);
    BytesUpTo(tr, j);
  }

  /** Once nobody is inside a request, the byte counter is the bytes of the responses served. */
  lemma BytesExact(tr: Trace, j: nat)
    requires Opens(tr) && j <= |tr.moves| && tr.states[j].reset.NoReset?
    requires forall w | w in tr.states[j].pcs :: !Inside(tr.states[j].pcs[w])
    ensures tr.states[j].rec.bytes == BytesServed(tr, j)
  {
    BytesInTrace(tr, j);
    NothingOwed(tr.states[j].pcs);
  }

  // ------------------------------------------------------------- the two loops

  /** After the join of a closed loop: requests, failures, abandoned requests, latency samples, drops and
      each entry of both histograms are the numbers of such replies and closed connections in the run. */
  lemma ClosedBooks(cfg: C.Config, run: seq<C.Step>, b: Book)
    requires C.Valid(cfg, run) && R.AllIdle(C.Exec(cfg, run)) && C.Exec(cfg, run).reset.NoReset?
    ensures Amount(C.Exec(cfg, run).rec, b) == Entries(ClosedTrace(cfg, run), |run|, b)
  {
    ClosedIsTrace(cfg, run);
    StateAt(cfg, run, 0);
    assert |run[..0]| == 0;
    BookExact(ClosedTrace(cfg, run), |run|, b);
  }

  /** And of an open loop. */
  lemma OpenBooks(cfg: O.Config, run: seq<O.Step>, b: Book)
    requires cfg.clients > 0 && O.Valid(cfg, run) && O.Exec(cfg, run).holding == {}
    ensures Amount(O.Exec(cfg, run).sys.rec, b) == Entries(OpenTrace(cfg, run), |run|, b)
  {
    OpenIsTrace(cfg, run);
    OpenStart(cfg, run);
    OpenJoined(cfg, run);
    BookExact(OpenTrace(cfg, run), |run|, b);
  }

  lemma OpenJoined(cfg: O.Config, run: seq<O.Step>)
    requires cfg.clients > 0 && O.Valid(cfg, run) && O.Exec(cfg, run).holding == {}
    ensures var s := O.Exec(cfg, run).sys; s.reset.NoReset? && forall w | w in s.pcs :: !Inside(s.pcs[w])
  {
    O.ExecKeeps(cfg, run);
  }

  lemma {:induction false} OpenStart(cfg: O.Config, run: seq<O.Step>)
    requires cfg.clients > 0 && O.Valid(cfg, run)
    ensures OpenTrace(cfg, run).states[0] == O.INIT.sys
    decreases |run|
  {
    if run != [] {
      OpenStart(cfg, run[..|run| - 1]);
    }
  }
}
