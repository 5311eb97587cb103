/** The edge's connector registry: the slice of connected connectors, the control messages that
    change it, and the choice of a live connector for a request. */
module Registry {
  import opened Basics
  import opened Division
  import opened RoundRobin

  datatype Ref = Ref(id: nat, conn: nat, registered: bool, lastPing: Option<nat>, hostname: string, haID: int)

  /** What a control message (or the end of its stream) does to a connector's entry. */
  datatype Change = Register(hostname: string, haID: int) | Ping | Unregister | Eof

  datatype Balance = RoundRobinMode | HashMode

  function Changed(c: Ref, ch: Change, now: nat): Ref {
    match ch
    case Register(h, ha) => c.(registered := true, lastPing := Some(now), hostname := h, haID := ha)
    case Ping => c.(lastPing := Some(now))
    case Unregister => c.(registered := false)
    case Eof => c.(registered := false)
  }

  /** The slice after the first entry with this id is changed. */
  function Updated(cs: seq<Ref>, id: nat, ch: Change, now: nat): (r: seq<Ref>)
    ensures |r| == |cs|
  {
    if cs == [] then []
    else if cs[0].id == id then [Changed(cs[0], ch, now)] + cs[1..]
    else [cs[0]] + Updated(cs[1..], id, ch, now)
  }

  /** The slice after the first entry for this connection is cut out. */
  function Without(cs: seq<Ref>, conn: nat): seq<Ref> {
    if cs == [] then []
    else if cs[0].conn == conn then cs[1..]
    else [cs[0]] + Without(cs[1..], conn)
  }

  /** Cutting removes the first match at `i`, or nothing when `i` is the end. */
  lemma {:induction false} WithoutAt(cs: seq<Ref>, i: nat, conn: nat)
    requires i <= |cs| && forall j | 0 <= j < i :: cs[j].conn != conn
    requires i < |cs| ==> cs[i].conn == conn
    ensures Without(cs, conn) == if i < |cs| then cs[..i] + cs[i + 1..] else cs
    decreases i
  {
    if i > 0 {
      WithoutAt(cs[1..], i - 1, conn);
    }
  }

  lemma {:induction false} UpdatedAt(cs: seq<Ref>, i: nat, id: nat, ch: Change, now: nat)
    requires i <= |cs| && forall j | 0 <= j < i :: cs[j].id != id
    requires i < |cs| ==> cs[i].id == id
    ensures Updated(cs, id, ch, now) == if i < |cs| then cs[i := Changed(cs[i], ch, now)] else cs
    decreases i
  {
    if i > 0 {
      UpdatedAt(cs[1..], i - 1, id, ch, now);
    }
  }

  function StaleAfter(keepAlive: int): int {
    if keepAlive <= 0 then 0 else 3 * keepAlive
  }

  predicate Live(c: Ref, now: nat, stale: int) {
    c.registered && (stale <= 0 || c.lastPing.None? || now - c.lastPing.value < stale)
  }

  function LiveOnes(cs: seq<Ref>, now: nat, stale: int): seq<Ref> {
    if cs == [] then []
    else
      var rest := LiveOnes(cs[..|cs| - 1], now, stale);
      if Live(cs[|cs| - 1], now, stale) then rest + [cs[|cs| - 1]] else rest
  }

  // ------------------------------------------------------------- the slice in place

  class Edge {
    const keepAlive: int
    const balance: Balance
    var connectors: seq<Ref>
    var nextConnectorID: nat
    var rr: nat

    constructor (keepAlive: int, balance: Balance)
      ensures this.keepAlive == keepAlive && this.balance == balance
      ensures connectors == [] && nextConnectorID == 0 && rr == 0
    {
      this.keepAlive, this.balance := keepAlive, balance;
      connectors, nextConnectorID, rr := [], 0, 0;
    }

    method DrawID() returns (id: nat)
      modifies this`nextConnectorID
      ensures id == nextConnectorID == old(nextConnectorID) + 1
    {
      nextConnectorID := nextConnectorID + 1;
      id := nextConnectorID;
    }

    method AddConnector(id: nat, conn: nat) returns (n: nat)
      modifies this`connectors
      ensures connectors == old(connectors) + [Ref(id, conn, false, None, "", 0)]
      ensures n == |connectors|
    {
      connectors := connectors + [Ref(id, conn, false, None, "", 0)];
      n := |connectors|;
    }

    method WatchLost(conn: nat, now: nat) returns (n: nat, live: nat)
      modifies this`connectors
      ensures connectors == Without(old(connectors), conn)
      ensures n == |connectors| && live == |LiveOnes(connectors, now, StaleAfter(keepAlive))|
    {
      var i := 0;
      while i < |connectors| && connectors[i].conn != conn
        invariant 0 <= i <= |connectors|
        invariant forall j | 0 <= j < i :: connectors[j].conn != conn
      {
        i := i + 1;
      }
      WithoutAt(connectors, i, conn);
      if i < |connectors| {
        connectors := connectors[..i] + connectors[i + 1..];
      }
      n := |connectors|;
      live := RegisteredLocked(now);
    }

    method UpdateConnector(id: nat, ch: Change, now: nat)
      modifies this`connectors
      ensures connectors == Updated(old(connectors), id, ch, now)
    {
      var i := 0;
      while i < |connectors|
        invariant 0 <= i <= |connectors| && connectors == old(connectors)
        invariant forall j | 0 <= j < i :: connectors[j].id != id
      {
        if connectors[i].id == id {
          UpdatedAt(connectors, i, id, ch, now);
          connectors := connectors[i := Changed(connectors[i], ch, now)];
          return;
        }
        i := i + 1;
      }
      UpdatedAt(connectors, i, id, ch, now);
    }

    method RegisteredLocked(now: nat) returns (n: nat)
      ensures n == |LiveOnes(connectors, now, StaleAfter(keepAlive))|
    {
      n := 0;
      var stale := StaleAfter(keepAlive);
      for i := 0 to |connectors|
        invariant n == |LiveOnes(connectors[..i], now, stale)|
      {
        assert connectors[..i + 1][..i] == connectors[..i];
        if Live(connectors[i], now, stale) {
          n := n + 1;
        }
      }
      assert connectors[..|connectors|] == connectors;
    }

    /** `hash` stands for FNV-1a of the key: some fixed 32-bit value per key. */
    method PickConnector(key: string, hash: string -> bv32, now: nat) returns (c: Option<Ref>)
      requires rr < WORD
      modifies this`rr
      ensures rr < WORD
      ensures var live := LiveOnes(connectors, now, StaleAfter(keepAlive));
              if live == [] then c == None && rr == old(rr)
              else if balance == HashMode && key != ""
              then c == Some(live[hash(key) as nat % |live|]) && rr == old(rr)
              else c == Some(live[Choice(old(rr), 0, |live|)]) && rr == Advanced(old(rr))
    {
      var stale := StaleAfter(keepAlive);
      var live: seq<Ref> := [];
      for i := 0 to |connectors|
        invariant live == LiveOnes(connectors[..i], now, stale)
      {
        assert connectors[..i + 1][..i] == connectors[..i];
        if Live(connectors[i], now, stale) {
          live := live + [connectors[i]];
        }
      }
      assert connectors[..|connectors|] == connectors;
      if |live| == 0 {
        return None;
      }
      var i := PickConnectorIndex(|live|, key, hash);
      return Some(live[i]);
    }

    method PickConnectorIndex(n: nat, key: string, hash: string -> bv32) returns (i: nat)
      requires rr < WORD
      modifies this`rr
      ensures rr < WORD
      ensures n == 0 ==> i == 0 && rr == old(rr)
      ensures n > 0 && balance == HashMode && key != "" ==> i == hash(key) as nat % n && rr == old(rr)
      ensures n > 0 && !(balance == HashMode && key != "") ==> i == Choice(old(rr), 0, n) && rr == Advanced(old(rr))
    {
      if n == 0 {
        return 0;
      }
      if balance == HashMode && key != "" {
        return hash(key) as nat % n;
      }
      var ticket := rr;
      rr := Advanced(rr);
      DivUnique(ticket, WORD, 0);
      i := ticket % n;
    }
  }

  // ------------------------------------------------------------- runs of the tunnel listener

  /** The atomic steps of the tunnel goroutines. The accept loop draws an id and then appends under
      the lock; each connection's control goroutine and loss watcher take the lock once a step. */
  datatype Op =
    | Draw(conn: nat)
    | Append
    | Control(id: nat, ch: Change)
    | Lost(conn: nat)

  datatype Event = Event(now: nat, op: Op)

  datatype State = State(connectors: seq<Ref>, nextID: nat, drawn: Option<Ref>)

  function Step(s: State, e: Event): State {
    match e.op
    case Draw(conn) => s.(nextID := s.nextID + 1, drawn := Some(Ref(s.nextID + 1, conn, false, None, "", 0)))
    case Append => if s.drawn.None? then s else s.(connectors := s.connectors + [s.drawn.value], drawn := None)
    case Control(id, ch) => s.(connectors := Updated(s.connectors, id, ch, e.now))
    case Lost(conn) => s.(connectors := Without(s.connectors, conn))
  }

  function Exec(run: seq<Event>): State {
    if run == [] then State([], 0, None) else Step(Exec(run[..|run| - 1]), run[|run| - 1])
  }

  /** The connections accepted so far; the i-th one drawn has id i + 1. */
  function Accepted(run: seq<Event>): seq<nat> {
    if run == [] then [] else
    var rest := Accepted(run[..|run| - 1]);
    if run[|run| - 1].op.Draw? then rest + [run[|run| - 1].op.conn] else rest
  }

  function Appends(run: seq<Event>): nat {
    if run == [] then 0 else Appends(run[..|run| - 1]) + if run[|run| - 1].op.Append? then 1 else 0
  }

  /** What the goroutines can do next: one accept loop, fresh connections, control goroutines and
      watchers started by the append, a control stream that is silent after its end, a loss once. */
  ghost predicate Allowed(run: seq<Event>, e: Event) {
    match e.op
    case Draw(conn) => |Accepted(run)| == Appends(run) && conn !in Accepted(run)
    case Append => |Accepted(run)| == Appends(run) + 1
    case Control(id, _) => 1 <= id <= Appends(run) && !Ended(run, id)
    case Lost(conn) => conn in Accepted(run)[..SafeMin(Appends(run), |Accepted(run)|)] && !Gone(run, conn)
  }

  function SafeMin(a: nat, b: nat): nat { if a < b then a else b }

  ghost predicate Valid(run: seq<Event>) {
    forall k | 0 <= k < |run| :: Allowed(run[..k], run[k])
  }

  // ------------------------------------------------------------- the specification

  ghost predicate Ended(run: seq<Event>, id: nat) {
    exists k | 0 <= k < |run| :: run[k].op == Control(id, Eof)
  }

  ghost predicate Gone(run: seq<Event>, conn: nat) {
    exists k | 0 <= k < |run| :: run[k].op == Lost(conn)
  }

  /** Connected: appended to the slice, and its connection not lost. */
  ghost predicate Open(run: seq<Event>, id: nat) {
    1 <= id <= Appends(run) && id <= |Accepted(run)| && !Gone(run, Accepted(run)[id - 1])
  }

  predicate Registers(e: Event, id: nat) { e.op.Control? && e.op.id == id && e.op.ch.Register? }

  predicate Retires(e: Event, id: nat) { e.op.Control? && e.op.id == id && (e.op.ch.Unregister? || e.op.ch.Eof?) }

  predicate Arrives(e: Event, id: nat) { e.op.Control? && e.op.id == id && (e.op.ch.Register? || e.op.ch.Ping?) }

  /** Of the register, unregister and end-of-stream events for `id`, the last is a register. */
  ghost predicate RegisteredIn(run: seq<Event>, id: nat) {
    exists k | 0 <= k < |run| :: Registers(run[k], id) && forall j | k < j < |run| :: !Retires(run[j], id)
  }

  /** `t` is when the last register or ping for `id` arrived, if any did. */
  ghost predicate LastArrivalIs(run: seq<Event>, id: nat, t: Option<nat>) {
    match t
    case None => forall k | 0 <= k < |run| :: !Arrives(run[k], id)
    case Some(now) => exists k | 0 <= k < |run| ::
                        Arrives(run[k], id) && run[k].now == now && forall j | k < j < |run| :: !Arrives(run[j], id)
  }

  /** The name and HA index are those of the last register. */
  ghost predicate LabelsAre(run: seq<Event>, id: nat, host: string, ha: int) {
    || (host == "" && ha == 0 && forall k | 0 <= k < |run| :: !Registers(run[k], id))
    || exists k | 0 <= k < |run| ::
         Registers(run[k], id) && run[k].op.ch == Register(host, ha) && forall j | k < j < |run| :: !Registers(run[j], id)
  }

  ghost predicate Matches(run: seq<Event>, c: Ref) {
    && (c.registered <==> RegisteredIn(run, c.id))
    && LastArrivalIs(run, c.id, c.lastPing)
    && LabelsAre(run, c.id, c.hostname, c.haID)
  }

  /** `c` is what the specification holds for an open connection. */
  ghost predicate Entry(run: seq<Event>, c: Ref) {
    Open(run, c.id) && c.conn == Accepted(run)[c.id - 1] && Matches(run, c)
  }

  ghost predicate Ascending(cs: seq<Ref>) {
    forall i, j | 0 <= i < j < |cs| :: cs[i].id < cs[j].id
  }

  ghost predicate AllEntries(run: seq<Event>, cs: seq<Ref>) {
    forall i | 0 <= i < |cs| :: Entry(run, cs[i])
  }

  ghost predicate Covers(run: seq<Event>, cs: seq<Ref>) {
    forall id | Open(run, id) :: HasID(cs, id)
  }

  ghost predicate HasID(cs: seq<Ref>, id: nat) {
    exists i :: 0 <= i < |cs| && cs[i].id == id
  }

  /** The slice is the map from open connections to the fold of their control history: one entry
      per open connection, none for any other, in increasing id order. */
  ghost predicate Refines(run: seq<Event>, cs: seq<Ref>) {
    Ascending(cs) && AllEntries(run, cs) && Covers(run, cs)
  }

  // ------------------------------------------------------------- one more event

  lemma RegisteredStep(p: seq<Event>, e: Event, id: nat)
    ensures RegisteredIn(p + [e], id) <==> Registers(e, id) || (RegisteredIn(p, id) && !Retires(e, id))
  {
    var run := p + [e];
    if Registers(e, id) {
      assert Registers(run[|p|], id);
    } else if RegisteredIn(p, id) && !Retires(e, id) {
      var k :| 0 <= k < |p| && Registers(p[k], id) && forall j | k < j < |p| :: !Retires(p[j], id);
      assert Registers(run[k], id);
    }
    if RegisteredIn(run, id) && !Registers(e, id) {
      var k :| 0 <= k < |run| && Registers(run[k], id) && forall j | k < j < |run| :: !Retires(run[j], id);
      assert k < |p| && p[k] == run[k] && run[|p|] == e;
      assert forall j | k < j < |p| :: p[j] == run[j];
    }
  }

  lemma ArrivalStep(p: seq<Event>, e: Event, id: nat, t: Option<nat>)
    requires LastArrivalIs(p, id, t)
    ensures LastArrivalIs(p + [e], id, if Arrives(e, id) then Some(e.now) else t)
  {
    var run := p + [e];
    if Arrives(e, id) {
      assert Arrives(run[|p|], id) && run[|p|].now == e.now;
    } else if t.Some? {
      var k :| 0 <= k < |p| && Arrives(p[k], id) && p[k].now == t.value && forall j | k < j < |p| :: !Arrives(p[j], id);
      assert Arrives(run[k], id) && run[k].now == t.value;
    }
  }

  lemma LabelsStep(p: seq<Event>, e: Event, id: nat, host: string, ha: int)
    requires LabelsAre(p, id, host, ha)
    ensures Registers(e, id) ==> LabelsAre(p + [e], id, e.op.ch.hostname, e.op.ch.haID)
    ensures !Registers(e, id) ==> LabelsAre(p + [e], id, host, ha)
  {
    var run := p + [e];
    if Registers(e, id) {
      assert Registers(run[|p|], id) && run[|p|].op.ch == Register(e.op.ch.hostname, e.op.ch.haID);
    } else if k :| 0 <= k < |p| && Registers(p[k], id) && p[k].op.ch == Register(host, ha)
                   && forall j | k < j < |p| :: !Registers(p[j], id) {
      assert Registers(run[k], id) && run[k].op.ch == Register(host, ha);
    }
  }

  /** The event's own effect on an entry. */
  function After(c: Ref, e: Event): Ref {
    if e.op.Control? && e.op.id == c.id then Changed(c, e.op.ch, e.now) else c
  }

  /** An entry that follows its history still does after the event's own effect on it. */
  lemma MatchesStep(p: seq<Event>, e: Event, c: Ref)
    requires Matches(p, c)
    ensures Matches(p + [e], After(c, e))
  {
    RegisteredStep(p, e, c.id);
    ArrivalStep(p, e, c.id, c.lastPing);
    LabelsStep(p, e, c.id, c.hostname, c.haID);
  }

  lemma GoneStep(p: seq<Event>, e: Event, conn: nat)
    ensures Gone(p + [e], conn) <==> Gone(p, conn) || e.op == Lost(conn)
  {
    var run := p + [e];
    if Gone(p, conn) {
      var k :| 0 <= k < |p| && p[k].op == Lost(conn);
      assert run[k].op == Lost(conn);
    }
    if e.op == Lost(conn) {
      assert run[|p|].op == Lost(conn);
    }
  }

  // ------------------------------------------------------------- the refinement

  ghost predicate Distinct(conns: seq<nat>) {
    forall i, j | 0 <= i < j < |conns| :: conns[i] != conns[j]
  }

  /** Bookkeeping that ties the accept loop's counters to the run. */
  ghost predicate Coherent(run: seq<Event>, s: State) {
    && s.nextID == |Accepted(run)|
    && Appends(run) <= |Accepted(run)| <= Appends(run) + 1
    && Distinct(Accepted(run))
    && (s.drawn == if |Accepted(run)| == Appends(run) then None
                   else Some(Ref(s.nextID, Accepted(run)[s.nextID - 1], false, None, "", 0)))
    && (forall k | 0 <= k < |run| :: run[k].op.Control? ==> run[k].op.id <= Appends(run))
    && (forall conn | Gone(run, conn) :: conn in Accepted(run)[..Appends(run)])
  }

  lemma Unfold(p: seq<Event>, e: Event)
    ensures Exec(p + [e]) == Step(Exec(p), e)
    ensures Accepted(p + [e]) == if e.op.Draw? then Accepted(p) + [e.op.conn] else Accepted(p)
    ensures Appends(p + [e]) == Appends(p) + if e.op.Append? then 1 else 0
  {
    assert (p + [e])[..|p|] == p;
  }

  lemma CoherentStep(p: seq<Event>, e: Event)
    requires Coherent(p, Exec(p)) && Allowed(p, e)
    ensures Coherent(p + [e], Exec(p + [e]))
  {
    Unfold(p, e);
    var run := p + [e];
    forall conn | Gone(run, conn) ensures conn in Accepted(run)[..Appends(run)] {
      GoneStep(p, e, conn);
      var a :| 0 <= a < Appends(p) && Accepted(p)[a] == conn;
      assert Accepted(run)[..Appends(run)][a] == conn;
    }
  }

  /** An entry that keeps its place takes the event's effect and stays the specification's entry. */
  lemma Kept(p: seq<Event>, e: Event, c: Ref)
    requires Entry(p, c) && e.op != Lost(c.conn)
    ensures Entry(p + [e], After(c, e))
  {
    Unfold(p, e);
    GoneStep(p, e, c.conn);
    MatchesStep(p, e, c);
  }

  /** Which connections are open after one more event. */
  lemma OpenStep(p: seq<Event>, e: Event, id: nat)
    requires Appends(p) <= |Accepted(p)| && Open(p + [e], id)
    ensures Open(p, id) || (e.op.Append? && id == Appends(p) + 1)
    ensures id <= |Accepted(p)| ==> e.op != Lost(Accepted(p)[id - 1])
  {
    Unfold(p, e);
    GoneStep(p, e, Accepted(p + [e])[id - 1]);
  }

  /** Unless the event appends or removes, a slice that keeps every id still covers. */
  lemma CoversKept(p: seq<Event>, cs: seq<Ref>, e: Event, cs': seq<Ref>)
    requires Covers(p, cs) && Appends(p) <= |Accepted(p)| && !e.op.Append? && !e.op.Lost?
    requires forall i | 0 <= i < |cs| :: HasID(cs', cs[i].id)
    ensures Covers(p + [e], cs')
  {
    forall id | Open(p + [e], id) ensures HasID(cs', id) {
      OpenStep(p, e, id);
      assert HasID(cs, id);
    }
  }

  lemma DrawRefines(p: seq<Event>, cs: seq<Ref>, e: Event)
    requires Refines(p, cs) && Appends(p) <= |Accepted(p)| && e.op.Draw?
    ensures Refines(p + [e], cs)
  {
    forall i | 0 <= i < |cs| ensures Entry(p + [e], cs[i]) { Kept(p, e, cs[i]); }
    CoversKept(p, cs, e, cs);
  }

  /** A connection just appended has no history yet: its control goroutine starts afterwards. */
  lemma FreshEntry(p: seq<Event>, e: Event)
    requires Coherent(p, Exec(p)) && Allowed(p, e) && e.op.Append?
    ensures Entry(p + [e], Exec(p).drawn.value) && Exec(p).drawn.value.id == Appends(p) + 1
  {
    var run, c := p + [e], Exec(p).drawn.value;
    Unfold(p, e);
    GoneStep(p, e, c.conn);
    assert forall k | 0 <= k < |run| :: run[k].op.Control? ==> run[k].op.id < c.id;
    assert Matches(run, c);
    assert c.conn !in Accepted(p)[..Appends(p)];
  }

  lemma AppendRefines(p: seq<Event>, cs: seq<Ref>, e: Event, c: Ref)
    requires Refines(p, cs) && Appends(p) <= |Accepted(p)| && e.op.Append?
    requires Entry(p + [e], c) && c.id == Appends(p) + 1
    ensures Refines(p + [e], cs + [c])
  {
    var cs' := cs + [c];
    forall i | 0 <= i < |cs'| ensures Entry(p + [e], cs'[i]) {
      if i < |cs| {
        Kept(p, e, cs[i]);
      }
    }
    assert forall i | 0 <= i < |cs| :: Entry(p, cs[i]);
    forall id | Open(p + [e], id) ensures HasID(cs', id) {
      OpenStep(p, e, id);
      if id == c.id {
        assert cs'[|cs|].id == id;
      } else {
        var i :| 0 <= i < |cs| && cs[i].id == id;
        assert cs'[i].id == id;
      }
    }
  }

  lemma UpdatedPointwise(cs: seq<Ref>, e: Event)
    requires e.op.Control? && Ascending(cs)
    ensures forall i | 0 <= i < |cs| :: Updated(cs, e.op.id, e.op.ch, e.now)[i] == After(cs[i], e)
  {
    if i :| 0 <= i < |cs| && cs[i].id == e.op.id {
      UpdatedAt(cs, i, e.op.id, e.op.ch, e.now);
    } else {
      UpdatedAt(cs, |cs|, e.op.id, e.op.ch, e.now);
    }
  }

  /** For a connector already lost, a control message changes nothing. */
  lemma LateControlIsNoOp(p: seq<Event>, cs: seq<Ref>, e: Event)
    requires Refines(p, cs) && e.op.Control? && !Open(p, e.op.id)
    ensures Updated(cs, e.op.id, e.op.ch, e.now) == cs
  {
    assert forall i | 0 <= i < |cs| :: Entry(p, cs[i]);
    UpdatedAt(cs, |cs|, e.op.id, e.op.ch, e.now);
  }

  /** A control message reaches its own entry and no other. */
  lemma ControlRefines(p: seq<Event>, cs: seq<Ref>, e: Event)
    requires Refines(p, cs) && Appends(p) <= |Accepted(p)| && e.op.Control?
    ensures Refines(p + [e], Updated(cs, e.op.id, e.op.ch, e.now))
  {
    var cs' := Updated(cs, e.op.id, e.op.ch, e.now);
    UpdatedPointwise(cs, e);
    forall i | 0 <= i < |cs| ensures Entry(p + [e], cs'[i]) && cs'[i].id == cs[i].id && HasID(cs', cs[i].id) {
      Kept(p, e, cs[i]);
    }
    CoversKept(p, cs, e, cs');
  }

  /** Exactly one entry belongs to a connection that is about to be reported lost. */
  lemma LostEntry(p: seq<Event>, cs: seq<Ref>, conn: nat) returns (at: nat)
    requires Refines(p, cs) && Distinct(Accepted(p)) && Appends(p) <= |Accepted(p)|
    requires conn in Accepted(p)[..Appends(p)] && !Gone(p, conn)
    ensures at < |cs| && cs[at].conn == conn
    ensures forall i | 0 <= i < |cs| && i != at :: cs[i].conn != conn
  {
    var a :| 0 <= a < Appends(p) && Accepted(p)[a] == conn;
    assert Open(p, a + 1);
    assert HasID(cs, a + 1);
    at :| 0 <= at < |cs| && cs[at].id == a + 1;
    assert Entry(p, cs[at]);
    forall i | 0 <= i < |cs| && i != at ensures cs[i].conn != conn {
      assert Entry(p, cs[i]);
      OtherID(cs, i, at);
    }
  }

  lemma OtherID(cs: seq<Ref>, i: nat, j: nat)
    requires Ascending(cs) && i < |cs| && j < |cs| && i != j
    ensures cs[i].id != cs[j].id
  {
  }

  function Cut(cs: seq<Ref>, at: nat): seq<Ref>
    requires at < |cs|
  {
    cs[..at] + cs[at + 1..]
  }

  lemma CutAt(cs: seq<Ref>, at: nat, i: nat)
    requires at < |cs| && i < |cs| - 1
    ensures Cut(cs, at)[i] == cs[if i < at then i else i + 1]
  {
  }

  lemma CutAscends(cs: seq<Ref>, at: nat)
    requires Ascending(cs) && at < |cs|
    ensures Ascending(Cut(cs, at))
  {
    forall i, j | 0 <= i < j < |Cut(cs, at)| ensures Cut(cs, at)[i].id < Cut(cs, at)[j].id {
      CutAt(cs, at, i);
      CutAt(cs, at, j);
    }
  }

  lemma CutKeeps(cs: seq<Ref>, at: nat, i: nat)
    requires at < |cs| && i < |cs| && i != at
    ensures HasID(Cut(cs, at), cs[i].id)
  {
    var k := if i < at then i else i - 1;
    CutAt(cs, at, k);
    assert Cut(cs, at)[k].id == cs[i].id;
  }

  lemma LostEntries(p: seq<Event>, cs: seq<Ref>, e: Event, at: nat)
    requires AllEntries(p, cs) && e.op.Lost? && at < |cs|
    requires forall i | 0 <= i < |cs| && i != at :: cs[i].conn != e.op.conn
    ensures AllEntries(p + [e], Cut(cs, at))
  {
    forall i | 0 <= i < |Cut(cs, at)| ensures Entry(p + [e], Cut(cs, at)[i]) {
      CutAt(cs, at, i);
      Kept(p, e, cs[if i < at then i else i + 1]);
    }
  }

  lemma LostCovers(p: seq<Event>, cs: seq<Ref>, e: Event, at: nat)
    requires AllEntries(p, cs) && Covers(p, cs) && Appends(p) <= |Accepted(p)| && e.op.Lost?
    requires at < |cs| && cs[at].conn == e.op.conn
    ensures Covers(p + [e], Cut(cs, at))
  {
    assert Entry(p, cs[at]);
    forall id | Open(p + [e], id) ensures HasID(Cut(cs, at), id) {
      OpenStep(p, e, id);
      CutHas(cs, at, id);
    }
  }

  lemma CutHas(cs: seq<Ref>, at: nat, id: nat)
    requires at < |cs| && HasID(cs, id) && cs[at].id != id
    ensures HasID(Cut(cs, at), id)
  {
    var i :| 0 <= i < |cs| && cs[i].id == id;
    CutKeeps(cs, at, i);
  }

  /** The in-place cut removes the lost connection's entry and no other. */
  lemma LostRefines(p: seq<Event>, cs: seq<Ref>, e: Event)
    requires Coherent(p, Exec(p)) && Refines(p, cs) && Allowed(p, e) && e.op.Lost?
    ensures Refines(p + [e], Without(cs, e.op.conn)) && |Without(cs, e.op.conn)| == |cs| - 1
  {
    var at := LostEntry(p, cs, e.op.conn);
    WithoutAt(cs, at, e.op.conn);
    assert Without(cs, e.op.conn) == Cut(cs, at);
    CutAscends(cs, at);
    LostEntries(p, cs, e, at);
    LostCovers(p, cs, e, at);
  }

  /** Under every interleaving the slice is exactly the specification map, in increasing id order. */
  lemma {:induction false} ExecRefines(run: seq<Event>)
    requires Valid(run)
    ensures Coherent(run, Exec(run)) && Refines(run, Exec(run).connectors)
    decreases |run|
  {
    if run != [] {
      var p, e := run[..|run| - 1], run[|run| - 1];
      assert run == p + [e];
      assert forall k | 0 <= k < |p| :: run[..k] == p[..k] && run[k] == p[k];
      ExecRefines(p);
      assert Allowed(p, e);
      CoherentStep(p, e);
      Unfold(p, e);
      var cs := Exec(p).connectors;
      match e.op
      case Draw(conn) => DrawRefines(p, cs, e);
      case Append =>
        FreshEntry(p, e);
        AppendRefines(p, cs, e, Exec(p).drawn.value);
      case Control(id, ch) => ControlRefines(p, cs, e);
      case Lost(conn) =>
        LostRefines(p, cs, e);
    }
  }

  // ------------------------------------------------------------- picking a live connector

  /** Live by its own history: connected, registered, and heard from within three keep-alive periods
      (always, when there is no keep-alive). */
  ghost predicate SpecLive(run: seq<Event>, id: nat, now: nat, keepAlive: int) {
    && Open(run, id) && RegisteredIn(run, id)
    && (keepAlive <= 0 || exists t: nat :: LastArrivalIs(run, id, Some(t)) && now - t < 3 * keepAlive)
  }

  ghost function SpecLiveIDs(run: seq<Event>, now: nat, keepAlive: int): set<nat> {
    set id: nat | 1 <= id <= Appends(run) && SpecLive(run, id, now, keepAlive)
  }

  ghost function IDs(cs: seq<Ref>): set<nat> {
    set c | c in cs :: c.id
  }

  lemma {:induction false} LiveOnesAre(cs: seq<Ref>, now: nat, stale: int)
    requires Ascending(cs)
    ensures forall c :: c in LiveOnes(cs, now, stale) <==> c in cs && Live(c, now, stale)
    ensures Ascending(LiveOnes(cs, now, stale))
    decreases |cs|
  {
    if cs != [] {
      var p, c := cs[..|cs| - 1], cs[|cs| - 1];
      assert cs == p + [c];
      LiveOnesAre(p, now, stale);
      var rest := LiveOnes(p, now, stale);
      forall i | 0 <= i < |rest| ensures rest[i].id < c.id {
        assert rest[i] in p;
      }
    }
  }

  lemma {:induction false} AscendingCard(cs: seq<Ref>)
    requires Ascending(cs)
    ensures |IDs(cs)| == |cs|
    decreases |cs|
  {
    if cs != [] {
      var p, c := cs[..|cs| - 1], cs[|cs| - 1];
      AscendingCard(p);
      assert cs == p + [c];
      assert c.id !in IDs(p);
      assert IDs(cs) == IDs(p) + {c.id};
    }
  }

  /** Two answers to "when was it last heard from" agree, and a registered connector was heard from. */
  lemma LastArrivalUnique(run: seq<Event>, id: nat, t: Option<nat>, u: Option<nat>)
    requires LastArrivalIs(run, id, t) && LastArrivalIs(run, id, u)
    ensures t == u
    ensures RegisteredIn(run, id) ==> t.Some?
  {
    if t.Some? && u.Some? {
      var k :| 0 <= k < |run| && Arrives(run[k], id) && run[k].now == t.value && forall j | k < j < |run| :: !Arrives(run[j], id);
      var l :| 0 <= l < |run| && Arrives(run[l], id) && run[l].now == u.value && forall j | l < j < |run| :: !Arrives(run[j], id);
      assert k == l;
    }
  }

  lemma EntryLive(run: seq<Event>, c: Ref, now: nat, keepAlive: int)
    requires Entry(run, c)
    ensures Live(c, now, StaleAfter(keepAlive)) <==> SpecLive(run, c.id, now, keepAlive)
  {
    LastArrivalUnique(run, c.id, c.lastPing, c.lastPing);
    if SpecLive(run, c.id, now, keepAlive) && keepAlive > 0 {
      var t: nat :| LastArrivalIs(run, c.id, Some(t)) && now - t < 3 * keepAlive;
      LastArrivalUnique(run, c.id, c.lastPing, Some(t));
    }
  }

  /** After any run, the candidates `PickConnector` chooses from (and `RegisteredLocked` counts) are
      exactly the connectors live by their own history, each once. */
  lemma PickedFromLive(run: seq<Event>, now: nat, keepAlive: int)
    requires Valid(run)
    ensures var live := LiveOnes(Exec(run).connectors, now, StaleAfter(keepAlive));
            IDs(live) == SpecLiveIDs(run, now, keepAlive) && |live| == |SpecLiveIDs(run, now, keepAlive)|
  {
    ExecRefines(run);
    var cs, stale := Exec(run).connectors, StaleAfter(keepAlive);
    var live := LiveOnes(cs, now, stale);
    LiveOnesAre(cs, now, stale);
    forall c | c in cs ensures Entry(run, c) && (Live(c, now, stale) <==> SpecLive(run, c.id, now, keepAlive)) {
      EntryLive(run, c, now, keepAlive);
    }
    forall id | id in SpecLiveIDs(run, now, keepAlive) ensures id in IDs(live) {
      assert HasID(cs, id);
      var i :| 0 <= i < |cs| && cs[i].id == id;
      assert cs[i] in live;
    }
    AscendingCard(live);
  }

  // ------------------------------------------------------------- staleness

  /** The connection behind `id` is reported lost. */
  ghost predicate Leaves(run: seq<Event>, e: Event, id: nat) {
    1 <= id <= |Accepted(run)| && e.op == Lost(Accepted(run)[id - 1])
  }

  /** Every register or ping from `id` is followed in less than three keep-alive periods by another, by
      its unregister, end of stream or loss, or by the horizon; without a keep-alive any gap will do. */
  ghost predicate GapsBelow(run: seq<Event>, id: nat, horizon: nat, keepAlive: int) {
    keepAlive > 0 ==> forall k | 0 <= k < |run| && Arrives(run[k], id) ::
      || horizon - run[k].now < 3 * keepAlive
      || exists j :: k < j < |run| && EndsGap(run, j, id) && run[j].now - run[k].now < 3 * keepAlive
  }

  ghost predicate EndsGap(run: seq<Event>, j: nat, id: nat)
    requires j < |run|
  {
    Arrives(run[j], id) || Retires(run[j], id) || Leaves(run, run[j], id)
  }

  /** `now` is an instant between the first k events and the rest. */
  ghost predicate Instant(run: seq<Event>, k: nat, now: nat, horizon: nat) {
    k <= |run| && now <= horizon && forall j | k <= j < |run| :: now <= run[j].now
  }

  lemma {:induction false} LastArrivalExists(run: seq<Event>, id: nat) returns (t: Option<nat>)
    ensures LastArrivalIs(run, id, t)
    decreases |run|
  {
    if run == [] {
      t := None;
    } else {
      var p, e := run[..|run| - 1], run[|run| - 1];
      assert run == p + [e];
      t := LastArrivalExists(p, id);
      ArrivalStep(p, e, id, t);
      t := if Arrives(e, id) then Some(e.now) else t;
    }
  }

  lemma {:induction false} AcceptedPrefix(run: seq<Event>, k: nat)
    requires k <= |run|
    ensures Accepted(run[..k]) <= Accepted(run)
    decreases |run|
  {
    if k == |run| {
      assert run[..k] == run;
    } else {
      AcceptedPrefix(run[..|run| - 1], k);
      assert run[..|run| - 1][..k] == run[..k];
    }
  }

  lemma RegisteredAgain(p: seq<Event>, j: nat, id: nat) returns (g: nat)
    requires j < |p| && Retires(p[j], id) && RegisteredIn(p, id)
    ensures j < g < |p| && Arrives(p[g], id)
  {
    g :| 0 <= g < |p| && Registers(p[g], id) && forall i | g < i < |p| :: !Retires(p[i], id);
  }

  lemma LeftIsGone(run: seq<Event>, k: nat, j: nat, id: nat)
    requires j < k <= |run| && Leaves(run, run[j], id)
    ensures !Open(run[..k], id)
  {
    var p := run[..k];
    AcceptedPrefix(run, k);
    assert p[j] == run[j];
    if id <= |Accepted(p)| {
      assert p[j].op == Lost(Accepted(p)[id - 1]);
    }
  }

  /** A gap that has ended at j was ended by another arrival, or the connector is gone, or it has
      registered again since. */
  lemma GapEnded(run: seq<Event>, k: nat, id: nat, j: nat) returns (g: nat)
    requires j < k <= |run| && EndsGap(run, j, id) && RegisteredIn(run[..k], id)
    ensures !Open(run[..k], id) || (j <= g < k && Arrives(run[g], id))
  {
    g := j;
    if Leaves(run, run[j], id) {
      LeftIsGone(run, k, j, id);
    } else if Retires(run[j], id) {
      g := RegisteredAgain(run[..k], j, id);
    }
  }

  /** No false staleness: with gaps below the threshold, a registered connector that is still
      connected is live at every instant of the run, whatever becomes of it later. */
  lemma NoFalseStaleness(run: seq<Event>, k: nat, now: nat, horizon: nat, id: nat, keepAlive: int)
    requires Instant(run, k, now, horizon) && GapsBelow(run, id, horizon, keepAlive)
    requires Open(run[..k], id) && RegisteredIn(run[..k], id)
    ensures SpecLive(run[..k], id, now, keepAlive)
  {
    var p := run[..k];
    var t := LastArrivalExists(p, id);
    LastArrivalUnique(p, id, t, t);
    var a :| 0 <= a < |p| && Arrives(p[a], id) && p[a].now == t.value && forall j | a < j < |p| :: !Arrives(p[j], id);
    assert Arrives(run[a], id);
    assert forall i | 0 <= i < k :: p[i] == run[i];
    if keepAlive > 0 && horizon - run[a].now >= 3 * keepAlive {
      var j :| a < j < |run| && EndsGap(run, j, id) && run[j].now - run[a].now < 3 * keepAlive;
      if j < k {
        var g := GapEnded(run, k, id, j);
      }
    }
    assert LastArrivalIs(p, id, Some(t.value)) && (keepAlive > 0 ==> now - t.value < 3 * keepAlive);
  }

  /** So if the gaps of every connected and registered connector stay below the threshold, `Registered`
      counts them all, and a pick reports "none" only when there is no such one. */
  lemma NoneOnlyWhenNoneRegistered(run: seq<Event>, k: nat, now: nat, horizon: nat, keepAlive: int)
    requires Valid(run) && Instant(run, k, now, horizon)
    requires forall id: nat | Open(run[..k], id) && RegisteredIn(run[..k], id) :: GapsBelow(run, id, horizon, keepAlive)
    ensures var live := LiveOnes(Exec(run[..k]).connectors, now, StaleAfter(keepAlive));
            && IDs(live) == (set id: nat | 1 <= id <= Appends(run[..k]) && Open(run[..k], id) && RegisteredIn(run[..k], id))
            && |live| == |IDs(live)|
            && (live == [] <==> forall id: nat :: !(Open(run[..k], id) && RegisteredIn(run[..k], id)))
  {
    var p := run[..k];
    assert Valid(p) by {
      assert forall j | 0 <= j < |p| :: p[..j] == run[..j] && p[j] == run[j];
    }
    PickedFromLive(p, now, keepAlive);
    forall id: nat | Open(p, id) && RegisteredIn(p, id) ensures SpecLive(p, id, now, keepAlive) {
      NoFalseStaleness(run, k, now, horizon, id, keepAlive);
    }
    var live := LiveOnes(Exec(p).connectors, now, StaleAfter(keepAlive));
    if live != [] {
      assert live[0].id in IDs(live);
    } else {
      forall id: nat ensures !(Open(p, id) && RegisteredIn(p, id)) {
        assert Open(p, id) && RegisteredIn(p, id) ==> id in IDs(live);
      }
    }
  }

  // ------------------------------------------------------------- fairness among connectors

  lemma IDsWithoutLast(cs: seq<Ref>)
    requires Ascending(cs) && cs != []
    ensures IDs(cs[..|cs| - 1]) == IDs(cs) - {cs[|cs| - 1].id}
    ensures forall id | id in IDs(cs) :: id <= cs[|cs| - 1].id
  {
    var p, c := cs[..|cs| - 1], cs[|cs| - 1];
    assert cs == p + [c];
    assert c.id !in IDs(p);
    assert IDs(cs) == IDs(p) + {c.id};
  }

  lemma SameLast(a: seq<Ref>, b: seq<Ref>)
    requires Ascending(a) && Ascending(b) && IDs(a) == IDs(b) && a != [] && b != []
    ensures a[|a| - 1].id == b[|b| - 1].id
    ensures IDs(a[..|a| - 1]) == IDs(b[..|b| - 1])
  {
    IDsWithoutLast(a);
    IDsWithoutLast(b);
    assert a[|a| - 1].id in IDs(a) && b[|b| - 1].id in IDs(b);
  }

  /** Two live lists with the same ids have them at the same places. */
  lemma {:induction false} SamePlaces(a: seq<Ref>, b: seq<Ref>)
    requires Ascending(a) && Ascending(b) && IDs(a) == IDs(b)
    ensures |a| == |b| && forall i | 0 <= i < |a| :: a[i].id == b[i].id
    decreases |a|
  {
    AscendingCard(a);
    AscendingCard(b);
    if a != [] {
      var n := |a| - 1;
      SameLast(a, b);
      SamePlaces(a[..n], b[..n]);
      assert forall i | 0 <= i < n :: a[i] == a[..n][i] && b[i] == b[..n][i];
    }
  }

  /** How often `id` is picked when the k-th round-robin pick of a window chooses from `lives[k]`. */
  function Picks(lives: seq<seq<Ref>>, start: nat, id: nat): nat
    requires forall k | 0 <= k < |lives| :: lives[k] != []
  {
    if lives == [] then 0
    else
      var k := |lives| - 1;
      Picks(lives[..k], start, id) + if lives[k][Choice(start, k, |lives[k]|)].id == id then 1 else 0
  }

  lemma {:induction false} PicksAreHits(lives: seq<seq<Ref>>, start: nat, first: seq<Ref>, i: nat)
    requires Ascending(first) && i < |first|
    requires forall k | 0 <= k < |lives| :: |lives[k]| == |first| && forall j | 0 <= j < |first| :: lives[k][j].id == first[j].id
    ensures Picks(lives, start, first[i].id) == Hits(start, |lives|, |first|, i)
    decreases |lives|
  {
    if lives != [] {
      var k := |lives| - 1;
      PicksAreHits(lives[..k], start, first, i);
      var c := Choice(start, k, |first|);
      if c != i {
        OtherID(first, c, i);
      }
    }
  }

  /** Round-robin fairness among connectors: over any window of picks through which the set of live
      connectors (by their histories) stays the same, whatever else happens to the registry and the
      clock between the picks, each of them is picked floor(m/n) or ceil(m/n) times. */
  lemma ConnectorsFair(runs: seq<seq<Event>>, nows: seq<nat>, keepAlive: int, start: nat, ids: set<nat>, id: nat)
    requires |runs| == |nows| && id in ids && start + |runs| <= WORD
    requires forall k | 0 <= k < |runs| :: Valid(runs[k]) && SpecLiveIDs(runs[k], nows[k], keepAlive) == ids
    ensures var m, n := |runs|, |ids|;
            var lives := seq(m, k requires 0 <= k < m => LiveOnes(Exec(runs[k]).connectors, nows[k], StaleAfter(keepAlive)));
            && (forall k | 0 <= k < m :: lives[k] != [])
            && m / n <= Picks(lives, start, id) <= (m + n - 1) / n
  {
    var m, n := |runs|, |ids|;
    var lives := seq(m, k requires 0 <= k < m => LiveOnes(Exec(runs[k]).connectors, nows[k], StaleAfter(keepAlive)));
    forall k | 0 <= k < m ensures Ascending(lives[k]) && IDs(lives[k]) == ids && |lives[k]| == n {
      ExecRefines(runs[k]);
      LiveOnesAre(Exec(runs[k]).connectors, nows[k], StaleAfter(keepAlive));
      PickedFromLive(runs[k], nows[k], keepAlive);
    }
    if m > 0 {
      var first := lives[0];
      forall k | 0 <= k < m ensures |lives[k]| == n && forall j | 0 <= j < n :: lives[k][j].id == first[j].id {
        SamePlaces(lives[k], first);
      }
      assert id in IDs(first);
      var i :| 0 <= i < |first| && first[i].id == id;
      PicksAreHits(lives, start, first, i);
      FairWithoutWrap(start, m, n);
    } else {
      assert n > 0;
    }
  }
}
