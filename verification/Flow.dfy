/** The UI's flow counters: totals since the last reset, per-interval values that each published
    frame carries and clears, per-connector counts, and the number of open load connections. */
module Flow {
  import opened Basics
  import opened Histogram
  import Q = Percentile

  /** What one observed log line means; `id == 0` is a line without a connector id. */
  datatype Line =
    | Proxied(ms: int, id: nat)
    | OriginFailure(status: nat, id: nat)
    | NoConnector
    | ConnectorState(n: nat)                    // "connector registered" and "connector lost"
    | ConnOpen(version: string, used0RTT: bool)
    | ConnClosed
    | DropSummary(n: nat)                       // the load summary's own count
    | ClientTotals(req: nat, fail: nat)
    | Protocol(name: string, n: nat)

  datatype Counters = Counters(
    edgeReq: nat, edge524: nat, edge502: nat,
    dReq: nat, d524: nat, d502: nat,
    connectorReq: map<nat, nat>, connectorErr: map<nat, nat>,
    connOpened: nat, connClosed: nat, connOpenedTotal: nat, connClosedTotal: nat,
    activeConns: nat, zeroRTTAccept: nat, zeroRTTReject: nat)

  const ZERO: Counters := Counters(0, 0, 0, 0, 0, 0, map[], map[], 0, 0, 0, 0, 0, 0, 0)

  /** The interval part of a published frame. */
  datatype Frame = Frame(rps: nat, s524: nat, s502: nat, originRps: int, openSec: nat, closedSec: nat)

  function Requested(f: Counters): Counters { f.(edgeReq := f.edgeReq + 1, dReq := f.dReq + 1) }

  function Observed(f: Counters, l: Line): Counters {
    match l
    case Proxied(_, id) =>
      var g := Requested(f);
      if id > 0 then g.(connectorReq := Bump(g.connectorReq, id)) else g
    case OriginFailure(status, id) =>
      var g := Requested(f);
      var h := if status == 524 then g.(edge524 := g.edge524 + 1, d524 := g.d524 + 1)
               else g.(edge502 := g.edge502 + 1, d502 := g.d502 + 1);
      if id > 0 then h.(connectorErr := Bump(h.connectorErr, id)) else h
    case NoConnector => var g := Requested(f); g.(edge502 := g.edge502 + 1, d502 := g.d502 + 1)
    case ConnOpen(_, z) =>
      var g := f.(connOpened := f.connOpened + 1, connOpenedTotal := f.connOpenedTotal + 1, activeConns := f.activeConns + 1);
      if z then g.(zeroRTTAccept := g.zeroRTTAccept + 1) else g.(zeroRTTReject := g.zeroRTTReject + 1)
    case ConnClosed =>
      f.(connClosed := f.connClosed + 1, connClosedTotal := f.connClosedTotal + 1,
         activeConns := if f.activeConns > 0 then f.activeConns - 1 else 0)
    case _ => f
  }

  function FrameOf(f: Counters): Frame {
    Frame(f.dReq, f.d524, f.d502, f.dReq - f.d502, f.connOpened, f.connClosed)
  }

  function Ticked(f: Counters): Counters { f.(dReq := 0, d524 := 0, d502 := 0, connOpened := 0, connClosed := 0) }

  /** What the page shows beside the counters. */
  datatype Side = Side(
    tunnelUp: bool, tunnelKnown: bool, connectors: nat,
    edgeLatency: seq<int>, connectorLat: map<nat, seq<int>>,
    versions: map<string, nat>, protos: map<string, nat>, drops: nat,
    clientReq: nat, clientFail: nat)

  const BLANK: Side := Side(false, false, 0, [], map[], map[], map[], 0, 0, 0)

  /** How many latencies are kept of the current interval, and of each connector. */
  const LATENCIES: nat := 1024
  const CONNECTOR_LATENCIES: nat := 512

  function LatOf(m: map<nat, seq<int>>, id: nat): seq<int> { if id in m then m[id] else [] }

  function Noted(g: Side, l: Line): Side {
    match l
    case Proxied(ms, id) =>
      g.(edgeLatency := Q.Appended(g.edgeLatency, ms, LATENCIES),
         connectorLat := if id > 0 then g.connectorLat[id := Q.Appended(LatOf(g.connectorLat, id), ms, CONNECTOR_LATENCIES)]
                         else g.connectorLat,
         tunnelUp := true, tunnelKnown := true)
    case OriginFailure(status, _) => if status == 524 then g.(tunnelUp := true, tunnelKnown := true) else g
    case NoConnector => g.(tunnelUp := false, tunnelKnown := true, connectors := 0)
    case ConnectorState(n) => g.(connectors := n, tunnelUp := n > 0, tunnelKnown := true)
    case ConnOpen(v, _) => if v != "" then g.(versions := Bump(g.versions, v)) else g
    case ConnClosed => g.(drops := g.drops + 1)
    case DropSummary(n) => g.(drops := n)
    case ClientTotals(req, fail) => g.(clientReq := req, clientFail := fail)
    case Protocol(name, n) => g.(protos := g.protos[name := n])
  }

  function TickedSide(g: Side): Side { g.(edgeLatency := []) }

  /** A reset keeps what is known of the tunnel. */
  function ResetSide(g: Side): Side {
    g.(edgeLatency := [], connectorLat := map[], versions := map[], protos := map[], drops := 0, clientReq := 0, clientFail := 0)
  }

  datatype Percentiles = Percentiles(p50: int, p95: int, p99: int)

  function PercentilesOf(latency: seq<int>): Percentiles {
    Percentiles(Q.UI(latency, 50.0), Q.UI(latency, 95.0), Q.UI(latency, 99.0))
  }

  function SumMs(xs: seq<int>): int { if xs == [] then 0 else SumMs(xs[..|xs| - 1]) + xs[|xs| - 1] }

  /** Go's truncating division. */
  function Average(xs: seq<int>): int {
    if xs == [] then 0 else if SumMs(xs) >= 0 then SumMs(xs) / |xs| else -(-SumMs(xs) / |xs|)
  }

  function EachOf(m: map<nat, seq<int>>, p: real): map<nat, int> { map id | id in m :: Q.UI(m[id], p) }

  /** A published frame; health and impairment belong to other handlers. */
  datatype Message = Message(
    interval: Frame, latency: Percentiles, average: int, connectorP95: map<nat, int>, connectorP99: map<nat, int>,
    totals: Counters, side: Side, health: string, impair: string)

  function MessageOf(f: Counters, g: Side, health: string, impair: string): Message {
    Message(FrameOf(f), PercentilesOf(g.edgeLatency), Average(g.edgeLatency),
            EachOf(g.connectorLat, 95.0), EachOf(g.connectorLat, 99.0), f, g, health, impair)
  }

  class FlowState {
    var f: Counters
    var g: Side

    constructor ()
      ensures f == ZERO && g == BLANK
    {
      f, g := ZERO, BLANK;
    }

    method ObserveProxied(ms: int, id: nat)
      modifies this
      ensures f == Observed(old(f), Proxied(ms, id)) && g == Noted(old(g), Proxied(ms, id))
    {
      f := f.(edgeReq := f.edgeReq + 1);
      f := f.(dReq := f.dReq + 1);
      var kept := Q.AppendSample(g.edgeLatency, ms, LATENCIES);
      g := g.(edgeLatency := kept);
      if id > 0 {
        f := f.(connectorReq := Bump(f.connectorReq, id));
        kept := Q.AppendSample(LatOf(g.connectorLat, id), ms, CONNECTOR_LATENCIES);
        g := g.(connectorLat := g.connectorLat[id := kept]);
      }
      g := g.(tunnelUp := true, tunnelKnown := true);
    }

    method ObserveOriginFailure(status: nat, id: nat)
      modifies this
      ensures f == Observed(old(f), OriginFailure(status, id)) && g == Noted(old(g), OriginFailure(status, id))
    {
      f := f.(edgeReq := f.edgeReq + 1, dReq := f.dReq + 1);
      if status == 524 {
        f := f.(edge524 := f.edge524 + 1, d524 := f.d524 + 1);
        g := g.(tunnelUp := true, tunnelKnown := true);
      } else {
        f := f.(edge502 := f.edge502 + 1, d502 := f.d502 + 1);
      }
      if id > 0 {
        f := f.(connectorErr := Bump(f.connectorErr, id));
      }
    }

    method ObserveNoConnector()
      modifies this
      ensures f == Observed(old(f), NoConnector) && g == Noted(old(g), NoConnector)
    {
      f := f.(edgeReq := f.edgeReq + 1, dReq := f.dReq + 1, edge502 := f.edge502 + 1, d502 := f.d502 + 1);
      g := g.(tunnelUp := false, tunnelKnown := true, connectors := 0);
    }

    method ObserveConnectorState(n: nat)
      modifies this`g
      ensures g == Noted(old(g), ConnectorState(n))
    {
      g := g.(connectors := n);
      g := g.(tunnelUp := n > 0, tunnelKnown := true);
    }

    /** Other event names are ignored. */
    method ApplyBlastEvent(name: string, version: string, used0RTT: bool)
      modifies this
      ensures f == if name == "conn_open" then Observed(old(f), ConnOpen(version, used0RTT))
                   else if name == "conn_closed" then Observed(old(f), ConnClosed) else old(f)
      ensures g == if name == "conn_open" then Noted(old(g), ConnOpen(version, used0RTT))
                   else if name == "conn_closed" then Noted(old(g), ConnClosed) else old(g)
    {
      if name == "conn_open" {
        f := f.(connOpened := f.connOpened + 1, connOpenedTotal := f.connOpenedTotal + 1, activeConns := f.activeConns + 1);
        if version != "" {
          g := g.(versions := Bump(g.versions, version));
        }
        if used0RTT {
          f := f.(zeroRTTAccept := f.zeroRTTAccept + 1);
        } else {
          f := f.(zeroRTTReject := f.zeroRTTReject + 1);
        }
      } else if name == "conn_closed" {
        f := f.(connClosed := f.connClosed + 1, connClosedTotal := f.connClosedTotal + 1);
        if f.activeConns > 0 {
          f := f.(activeConns := f.activeConns - 1);
        }
        g := g.(drops := g.drops + 1);
      }
    }

    /** The three numbers that the load generator prints itself replace what was there. */
    method ObserveBlastNumbers(l: Line)
      requires l.DropSummary? || l.ClientTotals? || l.Protocol?
      modifies this`g
      ensures g == Noted(old(g), l)
    {
      match l
      case DropSummary(n) => g := g.(drops := n);
      case ClientTotals(req, fail) => g := g.(clientReq := req, clientFail := fail);
      case Protocol(name, n) => g := g.(protos := g.protos[name := n]);
    }

    method PublishFlow(health: string, impair: string) returns (msg: Message)
      modifies this
      ensures msg == MessageOf(old(f), old(g), health, impair)
      ensures f == Ticked(old(f)) && g == TickedSide(old(g))
    {
      var latency, average := PercentilesOf(g.edgeLatency), Average(g.edgeLatency);
      var p95, p99 := EachOf(g.connectorLat, 95.0), EachOf(g.connectorLat, 99.0);
      var frame := Frame(f.dReq, f.d524, f.d502, f.dReq - f.d502, f.connOpened, f.connClosed);
      msg := Message(frame, latency, average, p95, p99, f, g, health, impair);
      f := f.(dReq := 0, d524 := 0, d502 := 0);
      f := f.(connOpened := 0, connClosed := 0);
      g := g.(edgeLatency := []);
    }

    method ResetFlow()
      modifies this
      ensures f == ZERO && g == ResetSide(old(g))
    {
      f := ZERO;
      g := g.(edgeLatency := [], connectorLat := map[], versions := map[], protos := map[]);
      g := g.(drops := 0, clientReq := 0, clientFail := 0);
    }
  }

  // ------------------------------------------------------------- runs

  datatype Event = See(l: Line) | Tick | Reset

  function Step(f: Counters, e: Event): Counters {
    match e
    case See(l) => Observed(f, l)
    case Tick => Ticked(f)
    case Reset => ZERO
  }

  function Exec(run: seq<Event>): Counters {
    if run == [] then ZERO else Step(Exec(run[..|run| - 1]), run[|run| - 1])
  }

  /** The frames published since the last reset. */
  function Frames(run: seq<Event>): seq<Frame> {
    if run == [] then []
    else
      var p := run[..|run| - 1];
      match run[|run| - 1]
      case See(_) => Frames(p)
      case Tick => Frames(p) + [FrameOf(Exec(p))]
      case Reset => []
  }

  /** The lines seen since the last reset. */
  function Seen(run: seq<Event>): seq<Line> {
    if run == [] then []
    else
      match run[|run| - 1]
      case See(l) => Seen(run[..|run| - 1]) + [l]
      case Tick => Seen(run[..|run| - 1])
      case Reset => []
  }

  function Sum(xs: seq<Frame>, g: Frame -> int): int {
    if xs == [] then 0 else Sum(xs[..|xs| - 1], g) + g(xs[|xs| - 1])
  }

  function CountLines(ls: seq<Line>, p: Line -> bool): nat {
    if ls == [] then 0 else CountLines(ls[..|ls| - 1], p) + if p(ls[|ls| - 1]) then 1 else 0
  }

  predicate IsRequest(l: Line) { l.Proxied? || l.OriginFailure? || l.NoConnector? }

  predicate Is524(l: Line) { l.OriginFailure? && l.status == 524 }

  predicate Is502(l: Line) { l.NoConnector? || (l.OriginFailure? && l.status != 524) }

  predicate IsServed(l: Line) { l.Proxied? && l.id > 0 }

  predicate IsOpen(l: Line) { l.ConnOpen? }

  predicate IsClose(l: Line) { l.ConnClosed? }

  function Rps(f: Frame): int { f.rps }
  function S524(f: Frame): int { f.s524 }
  function S502(f: Frame): int { f.s502 }
  function Opens(f: Frame): int { f.openSec }
  function Closes(f: Frame): int { f.closedSec }

  /** Request totals are what was seen, and what was published plus the open interval. */
  ghost predicate RequestBooks(f: Counters, ls: seq<Line>, fs: seq<Frame>) {
    && f.edgeReq == CountLines(ls, IsRequest) == Sum(fs, Rps) + f.dReq
    && f.edge524 == CountLines(ls, Is524) == Sum(fs, S524) + f.d524
    && f.edge502 == CountLines(ls, Is502) == Sum(fs, S502) + f.d502
    && f.d524 + f.d502 <= f.dReq
  }

  /** The same for connections opened and closed. */
  ghost predicate ConnBooks(f: Counters, ls: seq<Line>, fs: seq<Frame>) {
    && f.connOpenedTotal == CountLines(ls, IsOpen) == Sum(fs, Opens) + f.connOpened
    && f.connClosedTotal == CountLines(ls, IsClose) == Sum(fs, Closes) + f.connClosed
    && f.zeroRTTAccept + f.zeroRTTReject == f.connOpenedTotal
  }

  /** Per-connector counts cover the proxied lines that name a connector, so never more requests than
      the edge saw succeed. */
  ghost predicate ConnectorBooks(f: Counters, ls: seq<Line>) {
    && Total(f.connectorReq, Any) == CountLines(ls, IsServed)
    && Total(f.connectorReq, Any) + f.edge524 + f.edge502 <= f.edgeReq
  }

  ghost predicate Books(f: Counters, ls: seq<Line>, fs: seq<Frame>) {
    RequestBooks(f, ls, fs) && ConnBooks(f, ls, fs) && ConnectorBooks(f, ls)
  }

  lemma CountLast(ls: seq<Line>, l: Line, p: Line -> bool)
    ensures CountLines(ls + [l], p) == CountLines(ls, p) + if p(l) then 1 else 0
  {
    assert (ls + [l])[..|ls|] == ls;
  }

  lemma ObservedRequests(f: Counters, ls: seq<Line>, fs: seq<Frame>, l: Line)
    requires RequestBooks(f, ls, fs)
    ensures RequestBooks(Observed(f, l), ls + [l], fs)
  {
    CountLast(ls, l, IsRequest);
    CountLast(ls, l, Is524);
    CountLast(ls, l, Is502);
    RequestFields(f, l);
  }

  lemma RequestFields(f: Counters, l: Line)
    ensures var g, r, t, b := Observed(f, l), (if IsRequest(l) then 1 else 0), (if Is524(l) then 1 else 0), (if Is502(l) then 1 else 0);
            && g.edgeReq == f.edgeReq + r && g.dReq == f.dReq + r
            && g.edge524 == f.edge524 + t && g.d524 == f.d524 + t
            && g.edge502 == f.edge502 + b && g.d502 == f.d502 + b
  {
  }

  lemma ConnFields(f: Counters, l: Line)
    ensures var g, o, c := Observed(f, l), (if IsOpen(l) then 1 else 0), (if IsClose(l) then 1 else 0);
            && g.connOpened == f.connOpened + o && g.connOpenedTotal == f.connOpenedTotal + o
            && g.connClosed == f.connClosed + c && g.connClosedTotal == f.connClosedTotal + c
            && g.zeroRTTAccept + g.zeroRTTReject == f.zeroRTTAccept + f.zeroRTTReject + o
  {
  }

  lemma ObservedConns(f: Counters, ls: seq<Line>, fs: seq<Frame>, l: Line)
    requires ConnBooks(f, ls, fs)
    ensures ConnBooks(Observed(f, l), ls + [l], fs)
  {
    CountLast(ls, l, IsOpen);
    CountLast(ls, l, IsClose);
    ConnFields(f, l);
  }

  lemma ObservedConnectors(f: Counters, ls: seq<Line>, l: Line)
    requires ConnectorBooks(f, ls)
    ensures ConnectorBooks(Observed(f, l), ls + [l])
  {
    CountLast(ls, l, IsServed);
    if l.Proxied? {
      TotalBump(f.connectorReq, l.id, Any);
    }
  }

  lemma TickedBooks(f: Counters, ls: seq<Line>, fs: seq<Frame>)
    requires Books(f, ls, fs)
    ensures Books(Ticked(f), ls, fs + [FrameOf(f)])
  {
    assert (fs + [FrameOf(f)])[..|fs|] == fs;
  }

  lemma ZeroBooks(f: Counters, ls: seq<Line>, fs: seq<Frame>)
    requires f == ZERO && |ls| == |fs| == 0
    ensures Books(f, ls, fs)
  {
    assert KeysWhere(f.connectorReq, Any) == {};
  }

  /** Over any sequence of lines, ticks and resets: totals since the reset are the lines seen since
      then, and the sum of the published interval values plus the current interval. */
  lemma {:induction false} TotalsArePublished(run: seq<Event>)
    ensures Books(Exec(run), Seen(run), Frames(run))
    decreases |run|
  {
    if run == [] {
      ZeroBooks(Exec(run), Seen(run), Frames(run));
    } else {
      var p, e := run[..|run| - 1], run[|run| - 1];
      TotalsArePublished(p);
      if e.See? {
        ObservedRequests(Exec(p), Seen(p), Frames(p), e.l);
        ObservedConns(Exec(p), Seen(p), Frames(p), e.l);
        ObservedConnectors(Exec(p), Seen(p), e.l);
      } else if e.Tick? {
        TickedBooks(Exec(p), Seen(p), Frames(p));
      } else {
        ZeroBooks(Exec(run), Seen(run), Frames(run));
      }
    }
  }

  /** No published interval has more failures than requests, so the origin rate is never negative. */
  lemma {:induction false} OriginRateNonnegative(run: seq<Event>, i: nat)
    requires i < |Frames(run)|
    ensures var fr := Frames(run)[i]; fr.s524 + fr.s502 <= fr.rps && fr.originRps == fr.rps - fr.s502 >= 0
    decreases |run|
  {
    var p := run[..|run| - 1];
    if i < |Frames(p)| {
      OriginRateNonnegative(p, i);
    } else {
      TotalsArePublished(p);
    }
  }

  // ------------------------------------------------------------- the reflected walk

  /** Opens minus closes from position k on. */
  function NetFrom(ls: seq<Line>, k: nat): int
    requires k <= |ls|
  {
    if k == |ls| then 0
    else NetFrom(ls[..|ls| - 1], k) + match ls[|ls| - 1] case ConnOpen(_, _) => 1 case ConnClosed => -1 case _ => 0
  }

  ghost predicate IsMaxNet(ls: seq<Line>, v: int) {
    && (forall k | 0 <= k <= |ls| :: NetFrom(ls, k) <= v)
    && (exists k :: 0 <= k <= |ls| && NetFrom(ls, k) == v)
  }

  lemma EmptyNet(ls: seq<Line>)
    requires |ls| == 0
    ensures IsMaxNet(ls, 0)
  {
    assert NetFrom(ls, 0) == 0;
  }

  /** One step of the walk, held at zero. */
  function Reflected(v: nat, l: Line): nat {
    match l
    case ConnOpen(_, _) => v + 1
    case ConnClosed => if v > 0 then v - 1 else 0
    case _ => v
  }

  lemma ActiveStep(f: Counters, l: Line)
    ensures Observed(f, l).activeConns == Reflected(f.activeConns, l)
  {
  }

  lemma ReflectStep(ls: seq<Line>, v: nat, l: Line)
    requires IsMaxNet(ls, v)
    ensures IsMaxNet(ls + [l], Reflected(v, l))
  {
    var ms := ls + [l];
    assert ms[..|ls|] == ls;
    var d := match l case ConnOpen(_, _) => 1 case ConnClosed => -1 case _ => 0;
    forall k | 0 <= k <= |ls| ensures NetFrom(ms, k) == NetFrom(ls, k) + d {
    }
    var k :| 0 <= k <= |ls| && NetFrom(ls, k) == v;
    assert NetFrom(ms, k) == v + d;
    assert NetFrom(ms, |ms|) == 0;
  }

  /** The displayed number of open connections is the most that opens minus closes has reached over
      any suffix of the lines since the reset: closes of connections opened before it are ignored. */
  lemma {:induction false} ActiveIsReflected(run: seq<Event>)
    ensures IsMaxNet(Seen(run), Exec(run).activeConns)
    decreases |run|
  {
    if run == [] {
      EmptyNet(Seen(run));
    } else {
      var p := run[..|run| - 1];
      ActiveIsReflected(p);
      if run[|run| - 1].See? {
        ReflectStep(Seen(p), Exec(p).activeConns, run[|run| - 1].l);
        ActiveStep(Exec(p), run[|run| - 1].l);
      } else if run[|run| - 1].Reset? {
        EmptyNet(Seen(run));
      }
    }
  }

  // ------------------------------------------------------------- the percentiles

  function SideStep(g: Side, e: Event): Side {
    match e
    case See(l) => Noted(g, l)
    case Tick => TickedSide(g)
    case Reset => ResetSide(g)
  }

  function SideExec(run: seq<Event>): Side {
    if run == [] then BLANK else SideStep(SideExec(run[..|run| - 1]), run[|run| - 1])
  }

  /** The latencies of the requests proxied since the last tick or reset. */
  function Latencies(run: seq<Event>): seq<int> {
    if run == [] then []
    else
      var p := run[..|run| - 1];
      match run[|run| - 1]
      case See(l) => if l.Proxied? then Latencies(p) + [l.ms] else Latencies(p)
      case Tick => []
      case Reset => []
  }

  /** The latencies of the requests a connector served since the last reset. */
  function ServedBy(run: seq<Event>, id: nat): seq<int> {
    if run == [] then []
    else
      var p := run[..|run| - 1];
      match run[|run| - 1]
      case See(l) => if l.Proxied? && l.id == id then ServedBy(p, id) + [l.ms] else ServedBy(p, id)
      case Tick => ServedBy(p, id)
      case Reset => []
  }

  lemma WindowStep(h: seq<int>, x: int, keep: nat)
    ensures Q.Window(h + [x], keep) == Q.Appended(Q.Window(h, keep), x, keep)
  {
    assert (h + [x])[..|h|] == h;
  }

  lemma NotedLatency(g: Side, l: Line, id: nat)
    requires id > 0
    ensures Noted(g, l).edgeLatency == if l.Proxied? then Q.Appended(g.edgeLatency, l.ms, LATENCIES) else g.edgeLatency
    ensures LatOf(Noted(g, l).connectorLat, id)
         == if l.Proxied? && l.id == id then Q.Appended(LatOf(g.connectorLat, id), l.ms, CONNECTOR_LATENCIES)
            else LatOf(g.connectorLat, id)
  {
  }

  lemma {:induction false} KeptIsWindow(run: seq<Event>, id: nat)
    requires id > 0
    ensures SideExec(run).edgeLatency == Q.Window(Latencies(run), LATENCIES)
    ensures LatOf(SideExec(run).connectorLat, id) == Q.Window(ServedBy(run, id), CONNECTOR_LATENCIES)
    decreases |run|
  {
    if run != [] {
      var p, e := run[..|run| - 1], run[|run| - 1];
      KeptIsWindow(p, id);
      if e.See? {
        NotedLatency(SideExec(p), e.l, id);
        if e.l.Proxied? {
          WindowStep(Latencies(p), e.l.ms, LATENCIES);
          WindowStep(ServedBy(p, id), e.l.ms, CONNECTOR_LATENCIES);
        }
      }
    }
  }

  function LastOf(all: seq<int>, k: nat): seq<int> { if |all| <= k then all else all[|all| - k..] }

  /** `v` is the p-th percentile of w, and zero when there are no samples. */
  ghost predicate IsReading(w: seq<int>, p: real, v: int) {
    if w == [] then v == 0 else Q.IsQuantile(w, Q.Along(|w| - 1, p), v)
  }

  lemma ReadingOf(w: seq<int>, p: real)
    requires 0.0 <= p <= 100.0
    ensures IsReading(w, p, Q.UI(w, p))
  {
    if w != [] {
      Q.ReadingsAreQuantiles(w, p);
    }
  }

  ghost predicate AreReadings(w: seq<int>, ps: Percentiles) {
    IsReading(w, 50.0, ps.p50) && IsReading(w, 95.0, ps.p95) && IsReading(w, 99.0, ps.p99)
  }

  lemma EdgeReadings(w: seq<int>)
    ensures AreReadings(w, PercentilesOf(w))
  {
    ReadingOf(w, 50.0);
    ReadingOf(w, 95.0);
    ReadingOf(w, 99.0);
  }

  lemma KeptIsLast(w: seq<int>, all: seq<int>, keep: nat)
    requires w == Q.Window(all, keep)
    ensures w == LastOf(all, keep)
  {
    Q.WindowIsLast(all, keep);
  }

  ghost function EdgeKept(run: seq<Event>): seq<int> { SideExec(run).edgeLatency }

  ghost function ConnectorKept(run: seq<Event>, id: nat): seq<int> { LatOf(SideExec(run).connectorLat, id) }

  lemma LastKept(run: seq<Event>, id: nat)
    requires id > 0
    ensures EdgeKept(run) == LastOf(Latencies(run), 1024)
    ensures ConnectorKept(run, id) == LastOf(ServedBy(run, id), 512)
  {
    KeptIsWindow(run, id);
    KeptIsLast(EdgeKept(run), Latencies(run), LATENCIES);
    KeptIsLast(ConnectorKept(run, id), ServedBy(run, id), CONNECTOR_LATENCIES);
  }

  /** The sum of the samples from position k on. */
  ghost function SumFrom(w: seq<int>, k: nat): int
    requires k <= |w|
    decreases |w| - k
  {
    if k == |w| then 0 else w[k] + SumFrom(w, k + 1)
  }

  lemma {:induction false} SumSplits(w: seq<int>, k: nat)
    requires k <= |w|
    ensures SumMs(w) == SumMs(w[..k]) + SumFrom(w, k)
    decreases |w| - k
  {
    if k == |w| {
      assert w[..k] == w;
    } else {
      SumSplits(w, k + 1);
      assert w[..k + 1][..k] == w[..k];
    }
  }

  /** The mean of the samples, without its fraction; zero when there are none. */
  ghost predicate IsTruncatedMean(w: seq<int>, v: int) {
    if w == [] then v == 0
    else if SumFrom(w, 0) >= 0 then v * |w| <= SumFrom(w, 0) < (v + 1) * |w|
    else (v - 1) * |w| < SumFrom(w, 0) <= v * |w|
  }

  lemma Truncates(sum: nat, n: nat)
    requires n > 0
    ensures (sum / n) * n <= sum < (sum / n + 1) * n
  {
    assert sum == n * (sum / n) + sum % n;
    assert (sum / n + 1) * n == n * (sum / n) + n;
  }

  lemma AverageMeans(w: seq<int>)
    ensures IsTruncatedMean(w, Average(w))
  {
    if w != [] {
      SumSplits(w, 0);
      assert w[..0] == [];
      var sum, n := SumMs(w), |w|;
      if sum >= 0 {
        Truncates(sum, n);
      } else {
        Truncates(-sum, n);
        var q := -sum / n;
        assert Average(w) == -q;
        Negate(q, n);
      }
    }
  }

  lemma Negate(q: int, n: int)
    ensures (-q) * n == -(q * n) && (-q - 1) * n == -((q + 1) * n)
  {
  }

  lemma NotedServed(g: Side, l: Line, id: nat)
    ensures id in Noted(g, l).connectorLat <==> id in g.connectorLat || (l.Proxied? && l.id == id && id > 0)
  {
  }

  /** A connector has percentiles exactly when it has served something since the reset. */
  lemma {:induction false} HasLatencies(run: seq<Event>, id: nat)
    ensures id in SideExec(run).connectorLat <==> id > 0 && ServedBy(run, id) != []
    decreases |run|
  {
    if run != [] {
      var p, e := run[..|run| - 1], run[|run| - 1];
      HasLatencies(p, id);
      if e.See? {
        NotedServed(SideExec(p), e.l, id);
      }
    }
  }

  /** The frame published after a run, its latencies: of the last 1024 of its own interval, the 50th, 95th
      and 99th percentile and the mean. */
  lemma FrameLatencies(run: seq<Event>, health: string, impair: string)
    ensures var msg, w := MessageOf(Exec(run), SideExec(run), health, impair), LastOf(Latencies(run), 1024);
            && IsReading(w, 50.0, msg.latency.p50) && IsReading(w, 95.0, msg.latency.p95) && IsReading(w, 99.0, msg.latency.p99)
            && IsTruncatedMean(w, msg.average)
  {
    LastKept(run, 1);
    EdgeReadings(EdgeKept(run));
    AverageMeans(EdgeKept(run));
  }

  /** And those of the connectors: of the last 512 that each has served since the reset, the 95th and the
      99th percentile, each under its own name, for exactly the connectors that have served any. */
  lemma FrameConnectors(run: seq<Event>, id: nat, health: string, impair: string)
    ensures var msg, w := MessageOf(Exec(run), SideExec(run), health, impair), LastOf(ServedBy(run, id), 512);
            && (id in msg.connectorP95 <==> id > 0 && ServedBy(run, id) != [])
            && (id in msg.connectorP99 <==> id > 0 && ServedBy(run, id) != [])
            && (id in msg.connectorP95 ==> IsReading(w, 95.0, msg.connectorP95[id]))
            && (id in msg.connectorP99 ==> IsReading(w, 99.0, msg.connectorP99[id]))
  {
    HasLatencies(run, id);
    if id > 0 {
      LastKept(run, id);
      ReadingOf(ConnectorKept(run, id), 95.0);
      ReadingOf(ConnectorKept(run, id), 99.0);
    }
  }

  // ------------------------------------------------------------- each number apart

  predicate IsEarly(l: Line) { l.ConnOpen? && l.used0RTT }

  predicate IsPlain(l: Line) { l.ConnOpen? && !l.used0RTT }

  function ServedAt(id: nat): Line -> bool { (l: Line) => l.Proxied? && l.id == id }

  function FailedAt(id: nat): Line -> bool { (l: Line) => l.OriginFailure? && l.id == id }

  function OpenedWith(v: string): Line -> bool { (l: Line) => l.ConnOpen? && l.version == v }

  function CountOf<K>(m: map<K, nat>, k: K): nat { if k in m then m[k] else 0 }

  /** Each count is the number of such lines since the reset. */
  ghost predicate Apart(f: Counters, g: Side, ls: seq<Line>, id: nat, v: string) {
    && f.zeroRTTAccept == CountLines(ls, IsEarly) && f.zeroRTTReject == CountLines(ls, IsPlain)
    && CountOf(f.connectorReq, id) == CountLines(ls, ServedAt(id))
    && CountOf(f.connectorErr, id) == CountLines(ls, FailedAt(id))
    && CountOf(g.versions, v) == if v == "" then 0 else CountLines(ls, OpenedWith(v))
  }

  lemma ApartFields(f: Counters, g: Side, l: Line, id: nat, v: string)
    requires id > 0
    ensures var f', g' := Observed(f, l), Noted(g, l);
            && f'.zeroRTTAccept == f.zeroRTTAccept + (if IsEarly(l) then 1 else 0)
            && f'.zeroRTTReject == f.zeroRTTReject + (if IsPlain(l) then 1 else 0)
            && CountOf(f'.connectorReq, id) == CountOf(f.connectorReq, id) + (if ServedAt(id)(l) then 1 else 0)
            && CountOf(f'.connectorErr, id) == CountOf(f.connectorErr, id) + (if FailedAt(id)(l) then 1 else 0)
            && CountOf(g'.versions, v) == CountOf(g.versions, v) + (if v != "" && OpenedWith(v)(l) then 1 else 0)
  {
  }

  lemma ApartStep(f: Counters, g: Side, ls: seq<Line>, l: Line, id: nat, v: string)
    requires id > 0 && Apart(f, g, ls, id, v)
    ensures Apart(Observed(f, l), Noted(g, l), ls + [l], id, v)
  {
    ApartFields(f, g, l, id, v);
    CountLast(ls, l, IsEarly);
    CountLast(ls, l, IsPlain);
    CountLast(ls, l, ServedAt(id));
    CountLast(ls, l, FailedAt(id));
    CountLast(ls, l, OpenedWith(v));
  }

  /** 0-RTT accepted and rejected, requests and failures of every connector, and every QUIC version: each
      is the number of its own lines since the reset; a line without a version counts for none. */
  lemma {:induction false} CountsApart(run: seq<Event>, id: nat, v: string)
    requires id > 0
    ensures Apart(Exec(run), SideExec(run), Seen(run), id, v)
    decreases |run|
  {
    if run != [] {
      var p := run[..|run| - 1];
      CountsApart(p, id, v);
      if run[|run| - 1].See? {
        ApartStep(Exec(p), SideExec(p), Seen(p), run[|run| - 1].l, id, v);
      }
    }
  }

  /** `v` is what the last line that says anything says, or `init` when none does. */
  ghost predicate LastSays<T>(ls: seq<Line>, says: Line -> Option<T>, init: T, v: T) {
    || (v == init && forall k | 0 <= k < |ls| :: says(ls[k]).None?)
    || exists k :: 0 <= k < |ls| && says(ls[k]) == Some(v) && forall j | k < j < |ls| :: says(ls[j]).None?
  }

  lemma LastSaysStep<T>(ls: seq<Line>, l: Line, says: Line -> Option<T>, init: T, v: T)
    requires LastSays(ls, says, init, v)
    ensures LastSays(ls + [l], says, init, if says(l).Some? then says(l).value else v)
  {
    var ms := ls + [l];
    if says(l).Some? {
      assert says(ms[|ls|]) == says(l);
    } else if k :| 0 <= k < |ls| && says(ls[k]) == Some(v) && forall j | k < j < |ls| :: says(ls[j]).None? {
      assert says(ms[k]) == Some(v);
    }
  }

  function SaysClient(l: Line): Option<(nat, nat)> { if l.ClientTotals? then Some((l.req, l.fail)) else None }

  function SaysProtocol(name: string): Line -> Option<nat> { (l: Line) => if l.Protocol? && l.name == name then Some(l.n) else None }

  function SaysConnectors(l: Line): Option<nat> {
    match l
    case NoConnector => Some(0)
    case ConnectorState(n) => Some(n)
    case _ => None
  }

  function SaysKnown(l: Line): Option<bool> {
    if l.Proxied? || (l.OriginFailure? && l.status == 524) || l.NoConnector? || l.ConnectorState? then Some(true) else None
  }

  /** All lines, resets or not. */
  function Lines(run: seq<Event>): seq<Line> {
    if run == [] then []
    else if run[|run| - 1].See? then Lines(run[..|run| - 1]) + [run[|run| - 1].l]
    else Lines(run[..|run| - 1])
  }

  lemma NotedSays(g: Side, l: Line, name: string)
    ensures var g' := Noted(g, l);
            && (g'.clientReq, g'.clientFail) == (match SaysClient(l) case Some(c) => c case None => (g.clientReq, g.clientFail))
            && CountOf(g'.protos, name) == (match SaysProtocol(name)(l) case Some(n) => n case None => CountOf(g.protos, name))
            && g'.connectors == (match SaysConnectors(l) case Some(n) => n case None => g.connectors)
            && g'.tunnelKnown == (match SaysKnown(l) case Some(b) => b case None => g.tunnelKnown)
  {
  }

  /** The numbers that lines report rather than add to are those of the last such line: the client's totals
      and each protocol since the reset, the connectors and whether the tunnel is known since ever. */
  lemma {:induction false} ReportedNumbers(run: seq<Event>, name: string)
    ensures var g := SideExec(run);
            && LastSays(Seen(run), SaysClient, (0, 0), (g.clientReq, g.clientFail))
            && LastSays(Seen(run), SaysProtocol(name), 0, CountOf(g.protos, name))
            && LastSays(Lines(run), SaysConnectors, 0, g.connectors)
            && LastSays(Lines(run), SaysKnown, false, g.tunnelKnown)
    decreases |run|
  {
    if run != [] {
      var p, e := run[..|run| - 1], run[|run| - 1];
      ReportedNumbers(p, name);
      if e.See? {
        var g := SideExec(p);
        NotedSays(g, e.l, name);
        LastSaysStep(Seen(p), e.l, SaysClient, (0, 0), (g.clientReq, g.clientFail));
        LastSaysStep(Seen(p), e.l, SaysProtocol(name), 0, CountOf(g.protos, name));
        LastSaysStep(Lines(p), e.l, SaysConnectors, 0, g.connectors);
        LastSaysStep(Lines(p), e.l, SaysKnown, false, g.tunnelKnown);
      }
    }
  }

  /** Drops are the closed connections since the load's own count, and that count. */
  ghost predicate DropsAre(ls: seq<Line>, d: nat) {
    exists k :: 0 <= k <= |ls| && CountsDrops(ls, k, d)
  }

  ghost predicate CountsDrops(ls: seq<Line>, k: nat, d: nat)
    requires k <= |ls|
  {
    && (k > 0 ==> ls[k - 1].DropSummary?) && (forall j | k <= j < |ls| :: !ls[j].DropSummary?)
    && d == (if k > 0 then ls[k - 1].n else 0) + CountLines(ls[k..], IsClose)
  }

  lemma DropsStep(ls: seq<Line>, l: Line, d: nat)
    requires DropsAre(ls, d)
    ensures DropsAre(ls + [l], if l.DropSummary? then l.n else d + if IsClose(l) then 1 else 0)
  {
    var ms := ls + [l];
    if l.DropSummary? {
      assert CountsDrops(ms, |ms|, l.n);
    } else {
      var k :| 0 <= k <= |ls| && CountsDrops(ls, k, d);
      CountLast(ls[k..], l, IsClose);
      assert ms[k..] == ls[k..] + [l];
      assert k > 0 ==> ms[k - 1] == ls[k - 1];
      assert CountsDrops(ms, k, d + if IsClose(l) then 1 else 0);
    }
  }

  lemma NotedDrops(g: Side, l: Line)
    ensures Noted(g, l).drops == if l.DropSummary? then l.n else g.drops + if IsClose(l) then 1 else 0
  {
  }

  /** The drops shown: the load's own count where it has printed one, and the connections closed since. */
  lemma {:induction false} DropsShown(run: seq<Event>)
    ensures DropsAre(Seen(run), SideExec(run).drops)
    decreases |run|
  {
    if run == [] {
      assert CountsDrops(Seen(run), 0, 0);
    } else {
      var p, e := run[..|run| - 1], run[|run| - 1];
      DropsShown(p);
      match e
      case See(l) => NotedDrops(SideExec(p), l); DropsStep(Seen(p), l, SideExec(p).drops);
      case Tick =>
      case Reset => assert CountsDrops(Seen(run), 0, 0);
    }
  }

  // ------------------------------------------------------------- the tunnel light

  /** A line that proves the tunnel up, or down. */
  predicate ProvesUp(e: Event) {
    e.See? && (e.l.Proxied? || (e.l.OriginFailure? && e.l.status == 524) || (e.l.ConnectorState? && e.l.n > 0))
  }

  predicate ProvesDown(e: Event) { e.See? && (e.l.NoConnector? || (e.l.ConnectorState? && e.l.n == 0)) }

  /** Of the lines that prove anything, the last proves it up. */
  ghost predicate LastProvesUp(run: seq<Event>) {
    exists k | 0 <= k < |run| :: ProvesUp(run[k]) && forall j | k < j < |run| :: !ProvesDown(run[j])
  }

  lemma LastProvesStep(p: seq<Event>, e: Event)
    ensures LastProvesUp(p + [e]) <==> ProvesUp(e) || (LastProvesUp(p) && !ProvesDown(e))
  {
    var run := p + [e];
    assert run[|p|] == e;
    if ProvesUp(e) {
      assert ProvesUp(run[|p|]);
    } else if LastProvesUp(p) && !ProvesDown(e) {
      var k :| 0 <= k < |p| && ProvesUp(p[k]) && forall j | k < j < |p| :: !ProvesDown(p[j]);
      assert ProvesUp(run[k]);
    }
    if LastProvesUp(run) && !ProvesUp(e) {
      var k :| 0 <= k < |run| && ProvesUp(run[k]) && forall j | k < j < |run| :: !ProvesDown(run[j]);
      assert p[k] == run[k];
      assert forall j | k < j < |p| :: p[j] == run[j];
    }
  }

  lemma NotedLight(g: Side, l: Line)
    ensures Noted(g, l).tunnelUp <==> ProvesUp(See(l)) || (g.tunnelUp && !ProvesDown(See(l)))
  {
    match l
    case Proxied(_, _) =>
    case OriginFailure(_, _) =>
    case NoConnector =>
    case ConnectorState(_) =>
    case _ => assert !ProvesUp(See(l)) && !ProvesDown(See(l));
  }

  lemma LightStep(g: Side, e: Event)
    ensures SideStep(g, e).tunnelUp <==> ProvesUp(e) || (g.tunnelUp && !ProvesDown(e))
  {
    if e.See? {
      NotedLight(g, e.l);
    }
  }

  /** The tunnel is shown up exactly when the last line that proves anything proves it up; ticks,
      resets and failures of the origin do not change that. */
  lemma {:induction false} TunnelShownUp(run: seq<Event>)
    ensures SideExec(run).tunnelUp <==> LastProvesUp(run)
    decreases |run|
  {
    if run != [] {
      var p, e := run[..|run| - 1], run[|run| - 1];
      TunnelShownUp(p);
      LastProvesStep(p, e);
      LightStep(SideExec(p), e);
      assert run == p + [e];
    }
  }
}
