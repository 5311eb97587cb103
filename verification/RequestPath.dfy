/** One request through the tunnel: the edge's `ServeHTTP` and the connector's `serveStream`, racing
    the client's patience, the edge's origin timeout and the connector's own origin timeout. */
module RequestPath {
  import opened Basics

  /** `connTimeout == 0` means the connector's HTTP client has no timeout. */
  datatype Config = Config(edgeTimeout: nat, connTimeout: nat)

  /** What went wrong behind a broken stream, or inside the connector's `client.Do`. */
  datatype Cause = OriginFailed | ConnectorTimedOut | ContextEnded | RequestUnreadable | ConnectionLost

  /** What can reach the edge on the stream. A broken stream carries an error that may itself report
      a timeout (a QUIC idle timeout does). */
  datatype Reply = Headers(status: nat) | Broken(timeout: bool, cause: Cause)

  datatype Arrival = Arrival(what: Reply, at: nat)

  /** How the edge's read of the response head can end. */
  datatype ReadEnd = Got(reply: Reply) | PastDeadline

  datatype End = End(what: ReadEnd, at: nat)

  /** A status line sent to the client: proxied, or synthesised with a Cloudflare error code. */
  datatype Line = Proxied(status: nat) | CFError(status: nat, code: nat)

  /** Where `ServeHTTP` stands. Looking at the client, classifying, writing and logging are separate. */
  datatype EdgePc =
    | Picking | Opening | OpenFailed | Forwarding | Reading
    | Failed                       // the read failed, clientGone next
    | Passed                       // clientGone saw the client, classifyOriginFailure next
    | Writing(l: Line) | Logging(l: Line)
    | Copying | Done

  /** Where `serveStream` stands. */
  datatype ConnPc =
    | Unread
    | Asking(since: nat)           // inside client.Do
    | DoErr(cause: Cause)          // client.Do failed, resetTunnelOnOriginError next
    | Answering(status: nat)       // client.Do succeeded, resp.Write next
    | Answered | Reset | Abandoned

  /** `wire` is sent and not yet at the edge; `endedAt` is when the stream's context ended, by
      STOP_SENDING or with the connection. */
  datatype Connector = Connector(pc: ConnPc, wire: Option<Reply>, endedAt: Option<nat>)

  datatype State = State(
    now: nat,
    cancelAt: Option<nat>,        // when the client gave up
    ctxDeadline: nat,             // request context: set before the stream opens
    streamDeadline: nat,          // stream deadline: set once it is open
    edge: EdgePc,
    picked: bool,                 // a live connector was found
    openedAt: Option<nat>,        // when the tunnel stream opened
    forwardedAt: Option<nat>,     // when the request was fully sent
    arrived: Option<Arrival>,     // first thing to reach the edge on this stream
    end: Option<End>,             // how and when the edge's read returned
    gone: bool,                   // a clientGone check found the client gone
    doneAt: nat,                  // when the handler returned
    lines: seq<Line>,
    logged: seq<Line>,            // error lines in the edge log
    stopSent: bool,               // CancelRead: STOP_SENDING is under way
    lost: bool,                   // the edge has lost the connection
    c: Connector)

  datatype Label =
    | Tick(t: nat) | ClientCancel
    | PickOk | PickNone
    | OpenOk | OpenFail | CheckOpen
    | ForwardOk | ForwardFail
    | ReadReturns(past: bool)
    | Check | Classify
    | WriteLine | LogLine | CopyEnds
    | Lose(timeout: bool) | Deliver
    | ConnReads | ConnUnreadable | ConnBadTarget
    | OriginHeaders(status: nat) | OriginError | ConnTimeout | CtxAbort
    | RespWrite | Decide
    | StopArrives | ConnLose

  function Max(a: nat, b: nat): nat { if a < b then b else a }

  /** A request that reaches the edge at time `start`. */
  function Init(start: nat): State {
    State(start, None, 0, 0, Picking, false, None, None, None, None, false, 0, [], [], false, false,
          Connector(Unread, None, None))
  }

  // ------------------------------------------------------------- the pure decisions

  predicate ClientGone(s: State) { s.cancelAt.Some? }

  /** The request context ended by its deadline, and not by the client before that. */
  predicate CtxExpired(s: State) {
    s.now >= s.ctxDeadline && !(s.cancelAt.Some? && s.cancelAt.value < s.ctxDeadline)
  }

  function ClassifyOriginFailure(err: ReadEnd, ctxExpired: bool): Line {
    if ctxExpired || err.PastDeadline? || (err.reply.Broken? && err.reply.timeout) then CFError(524, 524) else CFError(502, 1014)
  }

  predicate ResetTunnelOnOriginError(originErr: bool, ctxErr: bool) { originErr && !ctxErr }

  // ------------------------------------------------------------- the transition system

  /** Nothing the edge waits for is overdue: a read returns, and a failure is handled, at once. Nor is
      the end of an origin request whose context has ended or whose timeout has run out. */
  predicate MayWait(cfg: Config, s: State, t: nat) {
    && !(s.c.pc.Asking? && s.c.endedAt.Some?)
    && (s.c.pc.Asking? && cfg.connTimeout > 0 ==> t <= s.c.pc.since + cfg.connTimeout)
    && match s.edge
       case Opening => t <= s.ctxDeadline
       case Forwarding => t <= s.streamDeadline
       case Reading => s.arrived.None? && t <= s.streamDeadline
       case Copying => true
       case Done => true
       case _ => false
  }

  predicate Enabled(cfg: Config, s: State, l: Label) {
    match l
    case Tick(t) => s.now < t && MayWait(cfg, s, t)
    case ClientCancel => s.cancelAt.None?
    case PickOk => s.edge.Picking?
    case PickNone => s.edge.Picking?
    case OpenOk => s.edge.Opening?
    case OpenFail => s.edge.Opening?
    case CheckOpen => s.edge.OpenFailed?
    case ForwardOk => s.edge.Forwarding?
    case ForwardFail => s.edge.Forwarding?
    case ReadReturns(past) => s.edge.Reading? && if past then s.now >= s.streamDeadline else s.arrived.Some?
    case Check => s.edge.Failed?
    case Classify => s.edge.Passed? && s.end.Some?
    case WriteLine => s.edge.Writing?
    case LogLine => s.edge.Logging?
    case CopyEnds => s.edge.Copying?
    case Lose(_) => s.openedAt.Some? && !s.lost
    case Deliver => s.c.wire.Some? && s.arrived.None?
    case ConnReads => s.openedAt.Some? && s.c.pc.Unread?
    case ConnUnreadable => s.openedAt.Some? && s.c.pc.Unread?
    case ConnBadTarget => s.openedAt.Some? && s.c.pc.Unread?
    case OriginHeaders(_) => s.c.pc.Asking?
    case OriginError => s.c.pc.Asking?
    case ConnTimeout => s.c.pc.Asking? && cfg.connTimeout > 0 && s.now >= s.c.pc.since + cfg.connTimeout
    case CtxAbort => s.c.pc.Asking? && s.c.endedAt.Some?
    case RespWrite => s.c.pc.Answering?
    case Decide => s.c.pc.DoErr?
    case StopArrives => s.stopSent && !s.lost && s.c.endedAt.None?
    case ConnLose => s.openedAt.Some? && s.c.endedAt.None?
  }

  /** `ServeHTTP` returns: its deferred CancelRead asks the connector to stop sending. */
  function Return(s: State): State {
    s.(edge := Done, doneAt := s.now, stopSent := s.openedAt.Some?)
  }

  // Whose step a label is.

  predicate TimeStep(l: Label) { l.Tick? || l.ClientCancel? }

  predicate SetupStep(l: Label) {
    l.PickOk? || l.PickNone? || l.OpenOk? || l.OpenFail? || l.CheckOpen? || l.ForwardOk? || l.ForwardFail?
  }

  predicate ReadStep(l: Label) { l.ReadReturns? || l.Check? || l.Classify? }

  predicate ReportStep(l: Label) { l.WriteLine? || l.LogLine? || l.CopyEnds? }

  predicate ArrivalStep(l: Label) { l.Lose? || l.Deliver? }

  predicate ConnectorStep(l: Label) {
    !TimeStep(l) && !SetupStep(l) && !ReadStep(l) && !ReportStep(l) && !ArrivalStep(l)
  }

  function OnTime(s: State, l: Label): State {
    match l
    case Tick(t) => s.(now := t)
    case ClientCancel => s.(cancelAt := Some(s.now))
    case _ => s
  }

  /** The edge, up to the request being forwarded. */
  function OnSetup(cfg: Config, s: State, l: Label): State {
    match l
    case PickOk => s.(edge := Opening, picked := true, ctxDeadline := s.now + cfg.edgeTimeout)
    case PickNone => s.(edge := Writing(CFError(502, 1033)))
    case OpenOk => s.(edge := Forwarding, openedAt := Some(s.now), streamDeadline := s.now + cfg.edgeTimeout)
    case OpenFail => s.(edge := OpenFailed)
    case CheckOpen => if ClientGone(s) then Return(s.(gone := true)) else s.(edge := Writing(CFError(502, 1033)))
    case ForwardOk => s.(edge := Reading, forwardedAt := Some(s.now))
    case ForwardFail => s.(edge := Writing(CFError(502, 1033)))
    case _ => s
  }

  predicate Proxies(e: ReadEnd) { e.Got? && e.reply.Headers? }

  /** The edge, reading the response head and judging a failure to. */
  function OnRead(s: State, l: Label): State {
    match l
    case ReadReturns(past) =>
      var what := if past || s.arrived.None? then PastDeadline else Got(s.arrived.value.what);
      var r := s.(end := Some(End(what, s.now)));
      if Proxies(what) then r.(edge := Copying, lines := s.lines + [Proxied(what.reply.status)]) else r.(edge := Failed)
    case Check => if ClientGone(s) then Return(s.(gone := true)) else s.(edge := Passed)
    case Classify => if s.end.None? then s else s.(edge := Writing(ClassifyOriginFailure(s.end.value.what, CtxExpired(s))))
    case _ => s
  }

  /** The edge, reporting. */
  function OnReport(s: State, l: Label): State {
    match l
    case WriteLine => if s.edge.Writing? then s.(lines := s.lines + [s.edge.l], edge := Logging(s.edge.l)) else s
    case LogLine => if s.edge.Logging? then Return(s.(logged := s.logged + [s.edge.l])) else s
    case CopyEnds => Return(s)
    case _ => s
  }

  function OnArrival(s: State, l: Label): State {
    match l
    case Lose(timeout) =>
      s.(lost := true,
         arrived := if s.arrived.None? then Some(Arrival(Broken(timeout, ConnectionLost), s.now)) else s.arrived)
    case Deliver =>
      if s.c.wire.None? then s
      else s.(c := s.c.(wire := None), arrived := Some(Arrival(s.c.wire.value, s.now)))
    case _ => s
  }

  /** A write on the tunnel stream; it fails once the stream's context has ended. */
  function Send(c: Connector, pc: ConnPc, r: Reply): Connector {
    c.(pc := pc, wire := if c.endedAt.None? then Some(r) else c.wire)
  }

  /** The connector's `serveStream`. The end of its context only makes `client.Do` return; what that
      means for the stream is decided afterwards. */
  function OnConnector(c: Connector, now: nat, l: Label): Connector {
    match l
    case ConnReads => c.(pc := if c.endedAt.Some? then DoErr(ContextEnded) else Asking(now))
    case ConnUnreadable => Send(c, Abandoned, Broken(false, RequestUnreadable))
    case ConnBadTarget => Send(c, Answered, Headers(400))
    case OriginHeaders(status) => c.(pc := Answering(status))
    case OriginError => c.(pc := DoErr(OriginFailed))
    case ConnTimeout => c.(pc := DoErr(ConnectorTimedOut))
    case CtxAbort => c.(pc := DoErr(ContextEnded))
    case RespWrite => if c.pc.Answering? then Send(c, Answered, Headers(c.pc.status)) else c
    case Decide =>
      if c.pc.DoErr? && ResetTunnelOnOriginError(true, c.endedAt.Some?)
      then Send(c, Reset, Broken(false, c.pc.cause))
      else c.(pc := Abandoned)
    case StopArrives => c.(endedAt := Some(now))
    case ConnLose => c.(endedAt := Some(now))
    case _ => c
  }

  function Step(cfg: Config, s: State, l: Label): State
    requires Enabled(cfg, s, l)
  {
    if TimeStep(l) then OnTime(s, l)
    else if SetupStep(l) then OnSetup(cfg, s, l)
    else if ReadStep(l) then OnRead(s, l)
    else if ReportStep(l) then OnReport(s, l)
    else if ArrivalStep(l) then OnArrival(s, l)
    else s.(c := OnConnector(s.c, s.now, l))
  }

  ghost predicate Valid(cfg: Config, start: nat, run: seq<Label>)
    decreases |run|, 0
  {
    run == [] ||
    (Valid(cfg, start, run[..|run| - 1]) && Enabled(cfg, Exec(cfg, start, run[..|run| - 1]), run[|run| - 1]))
  }

  ghost function Exec(cfg: Config, start: nat, run: seq<Label>): State
    requires Valid(cfg, start, run)
    decreases |run|, 1
  {
    if run == [] then Init(start)
    else Step(cfg, Exec(cfg, start, run[..|run| - 1]), run[|run| - 1])
  }

  // ------------------------------------------------------------- the ordering specification

  /** What reached a fully forwarded request first decides it: the first arrival on the stream (or
      the forwarding itself, if that came later) against the stream deadline, then the client. The
      two deadlines count from the start of the request and from the opening of the stream. */
  ghost predicate Decided(cfg: Config, start: nat, s: State)
    requires s.openedAt.Some? && s.forwardedAt.Some?
  {
    var ctxEnds, streamEnds := start + cfg.edgeTimeout, s.openedAt.value + cfg.edgeTimeout;
    && (s.arrived.Some? && Max(s.arrived.value.at, s.forwardedAt.value) < streamEnds ==>
          var at := Max(s.arrived.value.at, s.forwardedAt.value);
          match s.arrived.value.what
          case Headers(status) => s.lines == [Proxied(status)] && s.logged == []
          case Broken(timeout, _) =>
            && (ClientBefore(s, at) ==> Silent(s))
            && (ClientNotBy(s, at) ==> Reported(s, if timeout || at >= ctxEnds then CFError(524, 524) else CFError(502, 1014))))
    && (s.arrived.None? || s.arrived.value.at > streamEnds ==>
          && (ClientBefore(s, streamEnds) ==> Silent(s))
          && (ClientNotBy(s, streamEnds) ==> Reported(s, CFError(524, 524))))
  }

  /** Before that, only 1033 is possible; a client already gone when the stream fails to open gets
      nothing, while the other two failures do not look at the client. */
  ghost predicate Refused(s: State) {
    if s.picked && s.openedAt.None?
    then && (ClientBefore(s, s.doneAt) ==> Silent(s))
         && (ClientNotBy(s, s.doneAt) ==> Reported(s, CFError(502, 1033)))
    else Reported(s, CFError(502, 1033))
  }

  ghost predicate ClientBefore(s: State, t: nat) { s.cancelAt.Some? && s.cancelAt.value < t }

  ghost predicate ClientNotBy(s: State, t: nat) { s.cancelAt.None? || s.cancelAt.value > t }

  predicate Silent(s: State) { s.lines == [] && s.logged == [] }

  predicate Reported(s: State, l: Line) { s.lines == [l] && s.logged == [l] }

  // ------------------------------------------------------------- the invariant

  ghost predicate Clocked(cfg: Config, start: nat, s: State) {
    && start <= s.now && (s.edge.Picking? ==> s.now == start)
    && (s.openedAt.Some? || s.edge.Opening? ==> s.ctxDeadline == start + cfg.edgeTimeout)
    && (s.openedAt.Some? ==> start <= s.openedAt.value <= s.now && s.streamDeadline == s.openedAt.value + cfg.edgeTimeout)
    && (s.cancelAt.Some? ==> s.cancelAt.value <= s.now)
    && (s.arrived.Some? ==> s.arrived.value.at <= s.now)
    && (s.forwardedAt.Some? ==> s.openedAt.Some? && s.forwardedAt.value <= s.now && s.forwardedAt.value <= s.streamDeadline)
    && (s.edge.Forwarding? || s.edge.Reading? ==> s.openedAt.Some? && s.now <= s.streamDeadline)
    && (s.openedAt.Some? ==> !s.edge.Opening? && !s.edge.Picking? && !s.edge.OpenFailed?)
    && (s.edge.Picking? ==> !s.picked) && (s.edge.Opening? || s.edge.OpenFailed? || s.openedAt.Some? ==> s.picked)
    && (s.stopSent <==> s.edge.Done? && s.openedAt.Some?)
  }

  /** How a read that was not answered by headers ended, against what had arrived by then. */
  ghost predicate ReadOk(s: State)
    requires s.end.Some? && s.forwardedAt.Some?
  {
    var e := s.end.value;
    && e.at <= s.now && e.at <= s.streamDeadline && s.forwardedAt.value <= e.at
    && (if e.what.PastDeadline?
        then e.at == s.streamDeadline && (s.arrived.Some? ==> Max(s.arrived.value.at, s.forwardedAt.value) >= e.at)
        else s.arrived.Some? && s.arrived.value.what == e.what.reply && Max(s.arrived.value.at, s.forwardedAt.value) == e.at)
  }

  ghost predicate ReadFailed(s: State) {
    s.end.Some? && s.forwardedAt.Some? && ReadOk(s) && !Proxies(s.end.value.what)
  }

  ghost predicate Served(s: State) {
    && s.end.Some? && s.forwardedAt.Some? && ReadOk(s) && Proxies(s.end.value.what)
    && s.lines == [Proxied(s.end.value.what.reply.status)] && s.logged == [] && !s.gone
  }

  /** The client had not cancelled before the instant t. */
  ghost predicate HeldOn(s: State, t: nat) { s.cancelAt.Some? ==> t <= s.cancelAt.value }

  predicate NotRead(s: State) { s.end.None? && s.forwardedAt.None? }

  /** The line the edge owes at the instant `t` it looked at the client, if it did look. */
  ghost predicate Owed(s: State, t: nat, l: Line) {
    if s.forwardedAt.None?
    then s.end.None? && l == CFError(502, 1033) && (s.picked && s.openedAt.None? ==> HeldOn(s, t))
    else && ReadFailed(s) && t == s.end.value.at && HeldOn(s, t)
         && l == ClassifyOriginFailure(s.end.value.what, t >= s.ctxDeadline)
  }

  /** A client found gone at the instant t. */
  ghost predicate WalkedAway(s: State, t: nat) {
    && s.cancelAt.Some? && s.cancelAt.value <= t
    && if s.forwardedAt.None? then s.end.None? && s.picked && s.openedAt.None? else ReadFailed(s) && t == s.end.value.at
  }

  ghost predicate Written(s: State) {
    match s.edge
    case Reading =>
      && s.end.None? && s.forwardedAt.Some? && Silent(s) && !s.gone
      && (s.arrived.Some? ==> s.now == Max(s.arrived.value.at, s.forwardedAt.value))
    case Failed => ReadFailed(s) && s.now == s.end.value.at && Silent(s) && !s.gone
    case Passed => ReadFailed(s) && s.now == s.end.value.at && Silent(s) && !s.gone && HeldOn(s, s.now)
    case Writing(l) => Silent(s) && !s.gone && Owed(s, s.now, l)
    case Logging(l) => s.lines == [l] && s.logged == [] && !s.gone && Owed(s, s.now, l)
    case Copying => Served(s)
    case Done => s.doneAt <= s.now && Finished(s)
    case _ => NotRead(s) && Silent(s) && !s.gone
  }

  ghost predicate Finished(s: State) {
    if s.gone then Silent(s) && WalkedAway(s, s.doneAt)
    else Served(s) || exists l: Line :: Reported(s, l) && Owed(s, s.doneAt, l)
  }

  ghost predicate Inv(cfg: Config, start: nat, s: State) { Clocked(cfg, start, s) && Written(s) }

  lemma SetupKeeps(cfg: Config, start: nat, s: State, l: Label)
    requires Inv(cfg, start, s) && Enabled(cfg, s, l) && SetupStep(l)
    ensures Inv(cfg, start, OnSetup(cfg, s, l))
  {
  }

  lemma ReadKeeps(cfg: Config, start: nat, s: State, past: bool)
    requires Inv(cfg, start, s) && Enabled(cfg, s, ReadReturns(past))
    ensures Inv(cfg, start, OnRead(s, ReadReturns(past)))
  {
  }

  lemma JudgeKeeps(cfg: Config, start: nat, s: State, l: Label)
    requires Inv(cfg, start, s) && Enabled(cfg, s, l) && (l.Check? || l.Classify?)
    ensures Inv(cfg, start, OnRead(s, l))
  {
  }

  lemma ReportKeeps(cfg: Config, start: nat, s: State, l: Label)
    requires Inv(cfg, start, s) && Enabled(cfg, s, l) && ReportStep(l)
    ensures Inv(cfg, start, OnReport(s, l))
  {
    if l.LogLine? {
      var s' := OnReport(s, l);
      assert Reported(s', s.edge.l) && Owed(s', s'.doneAt, s.edge.l);
    }
  }

  lemma OwedKept(s: State, s': State)
    requires Finished(s) && s'.lines == s.lines && s'.logged == s.logged && s'.gone == s.gone && s'.doneAt == s.doneAt
    requires forall l: Line :: Owed(s, s.doneAt, l) ==> Owed(s', s.doneAt, l)
    requires Served(s) ==> Served(s')
    requires WalkedAway(s, s.doneAt) ==> WalkedAway(s', s.doneAt)
    ensures Finished(s')
  {
  }

  lemma TickKeeps(cfg: Config, start: nat, s: State, t: nat)
    requires Inv(cfg, start, s) && Enabled(cfg, s, Tick(t))
    ensures Inv(cfg, start, s.(now := t))
  {
    if s.edge.Done? {
      OwedKept(s, s.(now := t));
    }
  }

  lemma CancelKeeps(cfg: Config, start: nat, s: State)
    requires Inv(cfg, start, s) && s.cancelAt.None?
    ensures Inv(cfg, start, s.(cancelAt := Some(s.now)))
  {
    if s.edge.Done? {
      OwedKept(s, s.(cancelAt := Some(s.now)));
    }
  }

  lemma TimeKeeps(cfg: Config, start: nat, s: State, l: Label)
    requires Inv(cfg, start, s) && Enabled(cfg, s, l) && TimeStep(l)
    ensures Inv(cfg, start, OnTime(s, l))
  {
    if l.Tick? {
      TickKeeps(cfg, start, s, l.t);
    } else {
      CancelKeeps(cfg, start, s);
    }
  }

  /** The connector's own state, and what the edge knows of the connection, are nothing to the
      request until something arrives. */
  lemma OutsideKeeps(cfg: Config, start: nat, s: State, c: Connector, lost: bool)
    requires Inv(cfg, start, s)
    ensures Inv(cfg, start, s.(c := c, lost := lost))
  {
    if s.edge.Done? && !s.gone && !Served(s) {
      var k: Line :| Reported(s, k) && Owed(s, s.doneAt, k);
      assert Owed(s.(c := c, lost := lost), s.doneAt, k);
    }
  }

  lemma ArrivedKeeps(cfg: Config, start: nat, s: State, what: Reply)
    requires Inv(cfg, start, s) && s.arrived.None?
    ensures Inv(cfg, start, s.(arrived := Some(Arrival(what, s.now))))
  {
    if s.edge.Done? && !s.gone && !Served(s) {
      var k: Line :| Reported(s, k) && Owed(s, s.doneAt, k);
      assert Owed(s.(arrived := Some(Arrival(what, s.now))), s.doneAt, k);
    }
  }

  lemma ArrivalKeeps(cfg: Config, start: nat, s: State, l: Label)
    requires Inv(cfg, start, s) && Enabled(cfg, s, l) && ArrivalStep(l)
    ensures Inv(cfg, start, OnArrival(s, l))
  {
    var s' := OnArrival(s, l);
    OutsideKeeps(cfg, start, s, s'.c, s'.lost);
    if s.arrived.None? {
      ArrivedKeeps(cfg, start, s.(c := s'.c, lost := s'.lost), s'.arrived.value.what);
    }
  }

  lemma {:induction false} ExecKeeps(cfg: Config, start: nat, run: seq<Label>)
    requires Valid(cfg, start, run)
    ensures Inv(cfg, start, Exec(cfg, start, run))
    decreases |run|
  {
    if run != [] {
      ExecKeeps(cfg, start, run[..|run| - 1]);
      var s, l := Exec(cfg, start, run[..|run| - 1]), run[|run| - 1];
      if TimeStep(l) {
        TimeKeeps(cfg, start, s, l);
      } else if SetupStep(l) {
        SetupKeeps(cfg, start, s, l);
      } else if l.ReadReturns? {
        ReadKeeps(cfg, start, s, l.past);
      } else if ReadStep(l) {
        JudgeKeeps(cfg, start, s, l);
      } else if ReportStep(l) {
        ReportKeeps(cfg, start, s, l);
      } else if ArrivalStep(l) {
        ArrivalKeeps(cfg, start, s, l);
      } else {
        OutsideKeeps(cfg, start, s, OnConnector(s.c, s.now, l), s.lost);
      }
    }
  }

  // ------------------------------------------------------------- who reports the failure

  /** Who reports the failure: in every finished run of a fully forwarded request the outcome is the
      one the order of events dictates. */
  lemma OutcomeByOrder(cfg: Config, start: nat, run: seq<Label>)
    requires Valid(cfg, start, run)
    requires Exec(cfg, start, run).forwardedAt.Some? && Exec(cfg, start, run).edge.Done?
    ensures Exec(cfg, start, run).openedAt.Some? && Decided(cfg, start, Exec(cfg, start, run))
  {
    ExecKeeps(cfg, start, run);
    FinishedDecided(cfg, start, Exec(cfg, start, run));
  }

  lemma FinishedDecided(cfg: Config, start: nat, s: State)
    requires Clocked(cfg, start, s) && Finished(s) && s.forwardedAt.Some?
    ensures Decided(cfg, start, s)
  {
  }

  /** And in every finished run of a request that was not forwarded. */
  lemma RefusedOutcome(cfg: Config, start: nat, run: seq<Label>)
    requires Valid(cfg, start, run)
    requires Exec(cfg, start, run).forwardedAt.None? && Exec(cfg, start, run).edge.Done?
    ensures Refused(Exec(cfg, start, run))
  {
    ExecKeeps(cfg, start, run);
    FinishedRefused(Exec(cfg, start, run));
  }

  lemma FinishedRefused(s: State)
    requires Finished(s) && s.forwardedAt.None?
    ensures Refused(s)
  {
  }

  /** In any state of any run at most one status line is out, so a CF error never follows proxied
      headers; the log holds the error lines written, except between the write and its own log call. */
  lemma OneStatusLine(cfg: Config, start: nat, run: seq<Label>)
    requires Valid(cfg, start, run)
    ensures OneLine(Exec(cfg, start, run))
  {
    ExecKeeps(cfg, start, run);
    WrittenOneLine(Exec(cfg, start, run));
  }

  ghost predicate OneLine(s: State) {
    && |s.lines| <= 1
    && s.logged == if s.lines != [] && s.lines[0].CFError? && s.edge != Logging(s.lines[0]) then s.lines else []
  }

  lemma WrittenOneLine(s: State)
    requires Written(s)
    ensures OneLine(s)
  {
  }

  /** A clientGone check. */
  predicate Looks(l: Label) { l.CheckOpen? || l.Check? }

  /** Some clientGone check came after the client's cancel. */
  ghost predicate CheckedAfterCancel(run: seq<Label>) {
    exists k | 0 <= k < |run| :: Looks(run[k]) && ClientCancel in run[..k]
  }

  lemma CheckedStep(p: seq<Label>, l: Label)
    ensures CheckedAfterCancel(p + [l]) <==> CheckedAfterCancel(p) || (Looks(l) && ClientCancel in p)
  {
    var run := p + [l];
    assert run[|p|] == l && run[..|p|] == p;
    if CheckedAfterCancel(p) {
      var k :| 0 <= k < |p| && Looks(p[k]) && ClientCancel in p[..k];
      assert run[k] == p[k] && run[..k] == p[..k];
    }
    if CheckedAfterCancel(run) {
      var k :| 0 <= k < |run| && Looks(run[k]) && ClientCancel in run[..k];
      if k < |p| {
        assert run[k] == p[k] && run[..k] == p[..k];
      }
    }
  }

  /** What the state remembers of the client and of the checks. */
  ghost predicate Remembers(run: seq<Label>, s: State) {
    (s.cancelAt.Some? <==> ClientCancel in run) && (s.gone <==> CheckedAfterCancel(run))
  }

  ghost predicate Recalls(s: State, l: Label, s': State) {
    && (s'.cancelAt.Some? <==> s.cancelAt.Some? || l == ClientCancel)
    && (s'.gone <==> s.gone || (Looks(l) && s.cancelAt.Some?))
  }

  lemma RecallSetup(cfg: Config, s: State, l: Label)
    requires SetupStep(l)
    ensures Recalls(s, l, OnSetup(cfg, s, l))
  {
  }

  lemma RecallRead(s: State, l: Label)
    requires ReadStep(l)
    ensures Recalls(s, l, OnRead(s, l))
  {
  }

  lemma RecallRest(s: State, l: Label)
    requires !SetupStep(l) && !ReadStep(l)
    ensures TimeStep(l) ==> Recalls(s, l, OnTime(s, l))
    ensures ReportStep(l) ==> Recalls(s, l, OnReport(s, l))
    ensures ArrivalStep(l) ==> Recalls(s, l, OnArrival(s, l))
  {
  }

  lemma RememberStep(cfg: Config, s: State, l: Label)
    requires Enabled(cfg, s, l)
    ensures Recalls(s, l, Step(cfg, s, l))
  {
    if SetupStep(l) {
      RecallSetup(cfg, s, l);
    } else if ReadStep(l) {
      RecallRead(s, l);
    } else {
      RecallRest(s, l);
    }
  }

  lemma {:induction false} ExecRemembers(cfg: Config, start: nat, run: seq<Label>)
    requires Valid(cfg, start, run)
    ensures Remembers(run, Exec(cfg, start, run))
    decreases |run|
  {
    if run != [] {
      var p, l := run[..|run| - 1], run[|run| - 1];
      ExecRemembers(cfg, start, p);
      RememberStep(cfg, Exec(cfg, start, p), l);
      CheckedStep(p, l);
      assert run == p + [l];
    }
  }

  /** Whatever the timing, ties included: a finished request was answered by silence if and only if
      the client cancelled before a clientGone check. */
  lemma SilentIff(cfg: Config, start: nat, run: seq<Label>)
    requires Valid(cfg, start, run) && Exec(cfg, start, run).edge.Done?
    ensures Silent(Exec(cfg, start, run)) <==> CheckedAfterCancel(run)
    ensures Exec(cfg, start, run).lines == [] <==> CheckedAfterCancel(run)
  {
    ExecKeeps(cfg, start, run);
    ExecRemembers(cfg, start, run);
  }

  // ------------------------------------------------------------- a client that cancels

  predicate Blames(l: Line) { l == CFError(524, 524) || l == CFError(502, 1014) }

  predicate Blamed(lines: seq<Line>) { CFError(524, 524) in lines || CFError(502, 1014) in lines }

  /** The clientGone check has passed and the 524 or 1014 it let through is still to be written. */
  predicate Committed(s: State) { s.edge.Passed? || (s.edge.Writing? && Blames(s.edge.l)) }

  /** The same, still to be logged. */
  predicate CommittedLog(s: State) { Committed(s) || (s.edge.Logging? && Blames(s.edge.l)) }

  /** Once the client has cancelled, whether blame is or will be on record no longer changes. */
  ghost predicate SameBlame(s: State, s': State) {
    && s'.cancelAt.Some?
    && (Blamed(s'.lines) || Committed(s') <==> Blamed(s.lines) || Committed(s))
    && (Blamed(s'.logged) || CommittedLog(s') <==> Blamed(s.logged) || CommittedLog(s))
  }

  lemma BlameEdge(cfg: Config, s: State, l: Label)
    requires s.cancelAt.Some? && Enabled(cfg, s, l) && (SetupStep(l) || ReadStep(l))
    ensures SameBlame(s, Step(cfg, s, l))
  {
  }

  lemma BlameReport(cfg: Config, s: State, l: Label)
    requires s.cancelAt.Some? && Enabled(cfg, s, l) && ReportStep(l)
    ensures SameBlame(s, Step(cfg, s, l))
  {
  }

  lemma BlameOutside(cfg: Config, s: State, l: Label)
    requires s.cancelAt.Some? && Enabled(cfg, s, l) && !SetupStep(l) && !ReadStep(l) && !ReportStep(l)
    ensures SameBlame(s, Step(cfg, s, l))
  {
  }

  lemma {:induction false} BlameFixed(cfg: Config, start: nat, p: seq<Label>, q: seq<Label>)
    requires Valid(cfg, start, p + q) && Valid(cfg, start, p) && Exec(cfg, start, p).cancelAt.Some?
    ensures SameBlame(Exec(cfg, start, p), Exec(cfg, start, p + q))
    decreases |q|
  {
    if q == [] {
      assert p + q == p;
    } else {
      var q', l := q[..|q| - 1], q[|q| - 1];
      assert (p + q)[..|p + q| - 1] == p + q';
      BlameFixed(cfg, start, p, q');
      var s := Exec(cfg, start, p + q');
      if SetupStep(l) || ReadStep(l) {
        BlameEdge(cfg, s, l);
      } else if ReportStep(l) {
        BlameReport(cfg, s, l);
      } else {
        BlameOutside(cfg, s, l);
      }
    }
  }

  /** A 524 or 1014 appears after the client's cancel if and only if the clientGone check had already
      passed when the client cancelled; the same for the log. (`p` runs up to the cancel.) */
  lemma BlameAfterCancelIff(cfg: Config, start: nat, p: seq<Label>, q: seq<Label>)
    requires Valid(cfg, start, p) && Valid(cfg, start, p + [ClientCancel] + q)
    requires Exec(cfg, start, p + [ClientCancel] + q).edge.Done?
    ensures var s, f := Exec(cfg, start, p), Exec(cfg, start, p + [ClientCancel] + q);
            && (Blamed(f.lines) && !Blamed(s.lines) <==> Committed(s))
            && (Blamed(f.logged) && !Blamed(s.logged) <==> CommittedLog(s))
  {
    var r := p + [ClientCancel];
    ValidPrefix(cfg, start, r, q);
    assert r[..|r| - 1] == p;
    BlameFixed(cfg, start, r, q);
    ExecKeeps(cfg, start, p);
  }

  lemma {:induction false} ValidPrefix(cfg: Config, start: nat, p: seq<Label>, q: seq<Label>)
    requires Valid(cfg, start, p + q)
    ensures Valid(cfg, start, p)
    decreases |q|
  {
    if q == [] {
      assert p + q == p;
    } else {
      assert (p + q)[..|p + q| - 1] == p + q[..|q| - 1];
      ValidPrefix(cfg, start, p, q[..|q| - 1]);
    }
  }

  // ------------------------------------------------------------- runs that reach the edge cases

  lemma Nothing(cfg: Config, start: nat) returns (run: seq<Label>)
    ensures Valid(cfg, start, run) && Exec(cfg, start, run) == Init(start)
  {
    run := seq(0, i => Check);
  }

  lemma Extend(cfg: Config, start: nat, run: seq<Label>, l: Label) returns (next: seq<Label>)
    requires Valid(cfg, start, run) && Enabled(cfg, Exec(cfg, start, run), l)
    ensures next == run + [l]
    ensures Valid(cfg, start, next) && Exec(cfg, start, next) == Step(cfg, Exec(cfg, start, run), l)
  {
    next := run + [l];
    assert next[..|next| - 1] == run;
  }

  /** Waiting for an answer: the client is there, nothing has arrived, the connector is at work. */
  predicate Waits(s: State) {
    && s.edge.Reading? && s.c == Connector(s.c.pc, None, None) && s.c.pc.Asking?
    && s.cancelAt.None? && s.arrived.None? && Silent(s)
  }

  /** A request whose stream opened one tick late. */
  lemma LateOpen(cfg: Config, start: nat) returns (run: seq<Label>)
    requires cfg.edgeTimeout > 0
    ensures Valid(cfg, start, run)
    ensures var s := Exec(cfg, start, run);
            && s.now == start + 1 && s.edge.Forwarding? && s.c == Init(start).c && s.cancelAt.None? && s.arrived.None?
            && s.openedAt.Some? && s.ctxDeadline == start + cfg.edgeTimeout && s.streamDeadline == s.ctxDeadline + 1
            && Silent(s)
  {
    run := Nothing(cfg, start);
    run := Extend(cfg, start, run, PickOk);
    run := Extend(cfg, start, run, Tick(start + 1));
    run := Extend(cfg, start, run, OpenOk);
  }

  /** It is still waiting when its context expires, one tick before its stream does. */
  lemma AtContextDeadline(cfg: Config, start: nat) returns (run: seq<Label>)
    requires cfg.edgeTimeout > 1
    ensures Valid(cfg, start, run)
    ensures var s := Exec(cfg, start, run);
            Waits(s) && s.now == s.ctxDeadline == start + cfg.edgeTimeout && s.streamDeadline == s.now + 1
  {
    run := LateOpen(cfg, start);
    run := Extend(cfg, start, run, ForwardOk);
    run := Extend(cfg, start, run, Tick(start + cfg.edgeTimeout));
    run := Extend(cfg, start, run, ConnReads);
  }

  /** The origin answers a waiting request with headers, and they are delivered. */
  lemma HeadersArrive(cfg: Config, start: nat, run: seq<Label>, status: nat) returns (next: seq<Label>)
    requires Valid(cfg, start, run) && Waits(Exec(cfg, start, run))
    ensures Valid(cfg, start, next)
    ensures var s, f := Exec(cfg, start, run), Exec(cfg, start, next);
            f == s.(c := f.c, arrived := Some(Arrival(Headers(status), s.now)))
  {
    next := HeadersSent(cfg, start, run, status);
    next := Extend(cfg, start, next, Deliver);
  }

  lemma HeadersSent(cfg: Config, start: nat, run: seq<Label>, status: nat) returns (next: seq<Label>)
    requires Valid(cfg, start, run) && Waits(Exec(cfg, start, run))
    ensures Valid(cfg, start, next)
    ensures Exec(cfg, start, next) == Exec(cfg, start, run).(c := Connector(Answered, Some(Headers(status)), None))
  {
    next := Extend(cfg, start, run, OriginHeaders(status));
    next := Extend(cfg, start, next, RespWrite);
  }

  /** The origin fails a waiting request, and the reset is delivered. */
  lemma ResetArrives(cfg: Config, start: nat, run: seq<Label>) returns (next: seq<Label>)
    requires Valid(cfg, start, run) && Waits(Exec(cfg, start, run))
    ensures Valid(cfg, start, next)
    ensures var s, f := Exec(cfg, start, run), Exec(cfg, start, next);
            f == s.(c := f.c, arrived := Some(Arrival(Broken(false, OriginFailed), s.now)))
  {
    next := ResetSent(cfg, start, run);
    next := Extend(cfg, start, next, Deliver);
  }

  lemma ResetSent(cfg: Config, start: nat, run: seq<Label>) returns (next: seq<Label>)
    requires Valid(cfg, start, run) && Waits(Exec(cfg, start, run))
    ensures Valid(cfg, start, next)
    ensures Exec(cfg, start, next) == Exec(cfg, start, run).(c := Connector(Reset, Some(Broken(false, OriginFailed)), None))
  {
    next := Extend(cfg, start, run, OriginError);
    next := Extend(cfg, start, next, Decide);
  }

  /** The gap between the two deadlines is real for every timeout: headers that arrive once the
      request context has expired are still proxied... */
  lemma GapHeaders(cfg: Config, start: nat, status: nat) returns (run: seq<Label>)
    requires cfg.edgeTimeout > 1
    ensures Valid(cfg, start, run) && Exec(cfg, start, run).now >= start + cfg.edgeTimeout
    ensures Exec(cfg, start, run).lines == [Proxied(status)] && Exec(cfg, start, run).edge.Copying?
  {
    run := AtContextDeadline(cfg, start);
    run := HeadersArrive(cfg, start, run, status);
    run := Extend(cfg, start, run, ReadReturns(false));
  }

  /** A failed read that has passed its clientGone check, past the context deadline. */
  lemma GapPassed(cfg: Config, start: nat) returns (run: seq<Label>)
    requires cfg.edgeTimeout > 1
    ensures Valid(cfg, start, run)
    ensures var s := Exec(cfg, start, run);
            && s.now == s.ctxDeadline == start + cfg.edgeTimeout && s.edge.Passed? && s.cancelAt.None?
            && s.end.Some? && Silent(s)
  {
    run := AtContextDeadline(cfg, start);
    run := ResetArrives(cfg, start, run);
    run := Extend(cfg, start, run, ReadReturns(false));
    run := Extend(cfg, start, run, Check);
  }

  /** From there the report follows, whatever the client does now. */
  lemma ReportLine(cfg: Config, start: nat, run: seq<Label>) returns (next: seq<Label>)
    requires Valid(cfg, start, run) && Exec(cfg, start, run).edge.Passed? && Exec(cfg, start, run).end.Some?
    requires Silent(Exec(cfg, start, run))
    ensures next == run + [Classify, WriteLine, LogLine] && Valid(cfg, start, next)
    ensures Exec(cfg, start, next).now == Exec(cfg, start, run).now && Exec(cfg, start, next).edge.Done?
    ensures var s := Exec(cfg, start, run);
            Reported(Exec(cfg, start, next), ClassifyOriginFailure(s.end.value.what, CtxExpired(s)))
  {
    next := Extend(cfg, start, run, Classify);
    next := Extend(cfg, start, next, WriteLine);
    next := Extend(cfg, start, next, LogLine);
  }

  /** ...while an origin error there is reported as a 524. */
  lemma GapError(cfg: Config, start: nat) returns (run: seq<Label>)
    requires cfg.edgeTimeout > 1
    ensures Valid(cfg, start, run) && Exec(cfg, start, run).now >= start + cfg.edgeTimeout
    ensures Exec(cfg, start, run).edge.Done? && Reported(Exec(cfg, start, run), CFError(524, 524))
  {
    run := GapPassed(cfg, start);
    run := ReportLine(cfg, start, run);
  }

  /** A client that cancels between the clientGone check and the report is blamed all the same, for
      every timeout: a 524 is written and logged after the cancel. */
  lemma CancelledYetReported(cfg: Config, start: nat) returns (p: seq<Label>, q: seq<Label>)
    requires cfg.edgeTimeout > 1
    ensures Valid(cfg, start, p) && Silent(Exec(cfg, start, p)) && Committed(Exec(cfg, start, p))
    ensures Valid(cfg, start, p + [ClientCancel] + q)
    ensures Reported(Exec(cfg, start, p + [ClientCancel] + q), CFError(524, 524))
  {
    p := GapPassed(cfg, start);
    q := [Classify, WriteLine, LogLine];
    var r := Extend(cfg, start, p, ClientCancel);
    r := ReportLine(cfg, start, r);
  }

  // ------------------------------------------------------------- the connector's timeout

  /** What the connector has in hand or sent is honest about why: its timeout has run out, and an
      ended context is never what a reply reports. */
  ghost predicate HonestReply(cfg: Config, start: nat, r: Reply, at: nat) {
    r.Broken? ==> !r.cause.ContextEnded? && (r.cause.ConnectorTimedOut? ==> 0 < cfg.connTimeout && at >= start + cfg.connTimeout)
  }

  ghost predicate HonestConnector(cfg: Config, start: nat, now: nat, c: Connector) {
    && (c.wire.Some? ==> HonestReply(cfg, start, c.wire.value, now))
    && (c.pc.Asking? ==> start <= c.pc.since)
    && (c.pc == DoErr(ConnectorTimedOut) ==> 0 < cfg.connTimeout && now >= start + cfg.connTimeout)
    && (c.pc == DoErr(ContextEnded) ==> c.endedAt.Some?)
  }

  ghost predicate Honest(cfg: Config, start: nat, s: State) {
    && start <= s.now && HonestConnector(cfg, start, s.now, s.c)
    && (s.arrived.Some? ==> HonestReply(cfg, start, s.arrived.value.what, s.arrived.value.at))
  }

  lemma ConnectorHonest(cfg: Config, start: nat, s: State, l: Label)
    requires Honest(cfg, start, s) && Enabled(cfg, s, l) && ConnectorStep(l)
    ensures HonestConnector(cfg, start, s.now, OnConnector(s.c, s.now, l))
  {
  }

  lemma ArrivalHonest(cfg: Config, start: nat, s: State, l: Label)
    requires Honest(cfg, start, s) && Enabled(cfg, s, l) && ArrivalStep(l)
    ensures Honest(cfg, start, OnArrival(s, l))
  {
  }

  /** The other steps leave the stream alone, and only a tick moves the clock. */
  ghost predicate SameStream(s: State, l: Label, s': State) {
    && s'.c == s.c && s'.arrived == s.arrived && s'.now >= s.now
    && (!l.Tick? ==> s'.now == s.now)
  }

  lemma SetupFrame(cfg: Config, s: State, l: Label)
    ensures SetupStep(l) ==> SameStream(s, l, OnSetup(cfg, s, l))
  {
  }

  lemma ReadFrame(s: State, l: Label)
    ensures ReadStep(l) ==> SameStream(s, l, OnRead(s, l))
    ensures ReportStep(l) ==> SameStream(s, l, OnReport(s, l))
  {
  }

  lemma StreamFrame(cfg: Config, s: State, l: Label)
    requires Enabled(cfg, s, l) && !ArrivalStep(l) && !ConnectorStep(l)
    ensures SameStream(s, l, Step(cfg, s, l))
  {
    SetupFrame(cfg, s, l);
    ReadFrame(s, l);
  }

  lemma {:induction false} ExecHonest(cfg: Config, start: nat, run: seq<Label>)
    requires Valid(cfg, start, run)
    ensures Honest(cfg, start, Exec(cfg, start, run))
    decreases |run|
  {
    if run != [] {
      ExecHonest(cfg, start, run[..|run| - 1]);
      var s, l := Exec(cfg, start, run[..|run| - 1]), run[|run| - 1];
      if ArrivalStep(l) {
        ArrivalHonest(cfg, start, s, l);
      } else if ConnectorStep(l) {
        ConnectorHonest(cfg, start, s, l);
      } else {
        StreamFrame(cfg, s, l);
      }
    }
  }

  /** A 1014 always has a broken stream behind it, never because the edge itself gave up, and blames
      the connector's own timeout only when that is the shorter of the two; otherwise the same failure
      is reported as a 524. */
  lemma Cause1014(cfg: Config, start: nat, run: seq<Label>)
    requires Valid(cfg, start, run) && CFError(502, 1014) in Exec(cfg, start, run).lines
    ensures var s := Exec(cfg, start, run);
            && s.arrived.Some? && s.arrived.value.what.Broken? && !s.arrived.value.what.timeout
            && !s.arrived.value.what.cause.ContextEnded?
            && (s.arrived.value.what.cause.ConnectorTimedOut? ==> 0 < cfg.connTimeout < cfg.edgeTimeout)
  {
    ExecKeeps(cfg, start, run);
    ExecHonest(cfg, start, run);
    Written1014(Exec(cfg, start, run));
  }

  lemma Written1014(s: State)
    requires Written(s) && CFError(502, 1014) in s.lines
    ensures ReadFailed(s) && s.end.value.what.Got? && s.arrived.Some? && s.arrived.value.what == s.end.value.what.reply
    ensures !s.arrived.value.what.timeout && s.arrived.value.at <= s.end.value.at < s.ctxDeadline
  {
  }

  // ------------------------------------------------------------- where each reply comes from

  /** How `client.Do` ended, by the labels of the run. */
  function DoStep(done: Option<Reply>, l: Label): Option<Reply> {
    match l
    case OriginHeaders(status) => Some(Headers(status))
    case OriginError => Some(Broken(false, OriginFailed))
    case ConnTimeout => Some(Broken(false, ConnectorTimedOut))
    case CtxAbort => Some(Broken(false, ContextEnded))
    case _ => done
  }

  function DoResult(run: seq<Label>): Option<Reply> {
    if run == [] then None else DoStep(DoResult(run[..|run| - 1]), run[|run| - 1])
  }

  /** What the connector has put on the stream: nothing once its context has ended; otherwise the status
      or the failure of its origin request, 400 for a target it cannot use, and a bare end of stream for
      a request it cannot read. */
  function SpokenStep(ended: bool, spoken: Option<Reply>, done: Option<Reply>, l: Label): Option<Reply> {
    if ended then spoken
    else match l
      case ConnUnreadable => Some(Broken(false, RequestUnreadable))
      case ConnBadTarget => Some(Headers(400))
      case RespWrite => done
      case Decide => done
      case _ => spoken
  }

  ghost function Spoken(cfg: Config, start: nat, run: seq<Label>): Option<Reply>
    requires Valid(cfg, start, run)
    decreases |run|
  {
    if run == [] then None
    else
      var p := run[..|run| - 1];
      SpokenStep(Exec(cfg, start, p).c.endedAt.Some?, Spoken(cfg, start, p), DoResult(p), run[|run| - 1])
  }

  predicate Early(pc: ConnPc) { pc.Unread? || pc.Asking? || pc.DoErr? || pc.Answering? }

  ghost predicate Voice(c: Connector, spoken: Option<Reply>, done: Option<Reply>) {
    && (Early(c.pc) ==> spoken.None?)
    && (c.wire.Some? ==> c.wire == spoken)
    && (c.pc.Unread? || c.pc.Asking? ==> done.None?)
    && (c.pc.DoErr? && (c.endedAt.None? || done.Some?) ==> done == Some(Broken(false, c.pc.cause)))
    && (c.pc.Answering? ==> done == Some(Headers(c.pc.status)))
    && (c.pc.Reset? ==> spoken.Some? && spoken == done && spoken.value.Broken?)
  }

  lemma VoiceConnector(cfg: Config, s: State, spoken: Option<Reply>, done: Option<Reply>, l: Label)
    requires Voice(s.c, spoken, done) && Enabled(cfg, s, l) && ConnectorStep(l)
    ensures Voice(OnConnector(s.c, s.now, l), SpokenStep(s.c.endedAt.Some?, spoken, done, l), DoStep(done, l))
    ensures OnConnector(s.c, s.now, l).wire.Some? || SpokenStep(s.c.endedAt.Some?, spoken, done, l) == spoken
  {
  }

  /** Other steps say nothing; a delivery takes the reply off the wire. */
  lemma VoiceElsewhere(cfg: Config, s: State, spoken: Option<Reply>, done: Option<Reply>, l: Label)
    requires Voice(s.c, spoken, done) && Enabled(cfg, s, l) && !ConnectorStep(l)
    ensures Voice(Step(cfg, s, l).c, spoken, done)
    ensures SpokenStep(s.c.endedAt.Some?, spoken, done, l) == spoken && DoStep(done, l) == done
  {
    if !ArrivalStep(l) {
      StreamFrame(cfg, s, l);
    }
  }

  /** What the edge hears: what the connector said, or the loss of the connection. */
  ghost predicate Hears(s: State, spoken: Option<Reply>, run: seq<Label>) {
    && (spoken.Some? ==> s.c.wire == spoken || s.arrived.Some?)
    && (s.arrived.Some? ==> spoken == Some(s.arrived.value.what)
                            || (exists timeout :: Lose(timeout) in run && s.arrived.value.what == Broken(timeout, ConnectionLost)))
  }

  lemma HearsArrival(s: State, spoken: Option<Reply>, run: seq<Label>, l: Label)
    requires Hears(s, spoken, run) && (s.c.wire.Some? ==> s.c.wire == spoken) && ArrivalStep(l) && (l.Deliver? ==> s.arrived.None?)
    ensures Hears(OnArrival(s, l), spoken, run + [l])
  {
    if l.Lose? {
      assert Lose(l.timeout) in run + [l];
    }
    if s.arrived.Some? && spoken != Some(s.arrived.value.what) {
      var timeout :| Lose(timeout) in run && s.arrived.value.what == Broken(timeout, ConnectionLost);
      assert Lose(timeout) in run + [l];
    }
  }

  lemma HearsOther(s: State, s': State, spoken: Option<Reply>, spoken': Option<Reply>, run: seq<Label>, l: Label)
    requires Hears(s, spoken, run) && s'.arrived == s.arrived
    requires s'.c.wire == spoken' || (s'.c.wire == s.c.wire && spoken' == spoken)
    requires spoken.Some? ==> spoken' == spoken
    ensures Hears(s', spoken', run + [l])
  {
    if s.arrived.Some? && spoken != Some(s.arrived.value.what) {
      var timeout :| Lose(timeout) in run && s.arrived.value.what == Broken(timeout, ConnectionLost);
      assert Lose(timeout) in run + [l];
    }
  }

  lemma SpeaksOnce(cfg: Config, s: State, spoken: Option<Reply>, done: Option<Reply>, l: Label)
    requires Voice(s.c, spoken, done) && Enabled(cfg, s, l) && ConnectorStep(l)
    ensures var c', spoken' := OnConnector(s.c, s.now, l), SpokenStep(s.c.endedAt.Some?, spoken, done, l);
            && (c'.wire == spoken' || (c'.wire == s.c.wire && spoken' == spoken))
            && (spoken.Some? ==> spoken' == spoken)
  {
  }

  /** Over every run, both ways: the edge hears nothing but what the connector said (or the loss of the
      connection), and whatever the connector said is on the wire unless something has arrived. */
  lemma {:induction false} ConnectorSays(cfg: Config, start: nat, run: seq<Label>)
    requires Valid(cfg, start, run)
    ensures var s, spoken := Exec(cfg, start, run), Spoken(cfg, start, run);
            Voice(s.c, spoken, DoResult(run)) && Hears(s, spoken, run)
    decreases |run|
  {
    if run != [] {
      var p, l := run[..|run| - 1], run[|run| - 1];
      var s, spoken := Exec(cfg, start, p), Spoken(cfg, start, p);
      ConnectorSays(cfg, start, p);
      assert run == p + [l];
      if ConnectorStep(l) {
        VoiceConnector(cfg, s, spoken, DoResult(p), l);
        SpeaksOnce(cfg, s, spoken, DoResult(p), l);
        HearsOther(s, Exec(cfg, start, run), spoken, Spoken(cfg, start, run), p, l);
      } else {
        VoiceElsewhere(cfg, s, spoken, DoResult(p), l);
        if ArrivalStep(l) {
          HearsArrival(s, spoken, p, l);
        } else {
          StreamFrame(cfg, s, l);
          HearsOther(s, Exec(cfg, start, run), spoken, spoken, p, l);
        }
      }
    }
  }

  /** The label behind a reply. */
  ghost predicate Caused(run: seq<Label>, r: Reply) {
    match r
    case Headers(status) => OriginHeaders(status) in run || (status == 400 && ConnBadTarget in run)
    case Broken(timeout, cause) =>
      match cause
      case OriginFailed => !timeout && OriginError in run
      case ConnectorTimedOut => !timeout && ConnTimeout in run
      case ContextEnded => false
      case RequestUnreadable => !timeout && ConnUnreadable in run
      case ConnectionLost => Lose(timeout) in run
  }

  lemma {:induction false} ResultCaused(run: seq<Label>)
    ensures DoResult(run).Some? && DoResult(run) != Some(Broken(false, ContextEnded)) ==> Caused(run, DoResult(run).value)
    decreases |run|
  {
    if run != [] {
      var p := run[..|run| - 1];
      ResultCaused(p);
      assert run == p + [run[|run| - 1]];
    }
  }

  lemma CausedLater(run: seq<Label>, l: Label, r: Reply)
    requires Caused(run, r)
    ensures Caused(run + [l], r)
  {
  }

  /** A result that is spoken is not the end of the context. */
  lemma ResultSpoken(cfg: Config, start: nat, s: State, spoken: Option<Reply>, done: Option<Reply>, l: Label)
    requires Voice(s.c, spoken, done) && HonestConnector(cfg, start, s.now, s.c) && Enabled(cfg, s, l)
    requires (l.Decide? || l.RespWrite?) && s.c.endedAt.None?
    ensures done.Some? && done != Some(Broken(false, ContextEnded))
  {
  }

  lemma SpokenStepCaused(p: seq<Label>, ended: bool, spoken: Option<Reply>, done: Option<Reply>, l: Label)
    requires spoken.Some? ==> Caused(p, spoken.value)
    requires (l.Decide? || l.RespWrite?) && !ended ==> done.Some? && Caused(p, done.value)
    ensures SpokenStep(ended, spoken, done, l).Some? ==> Caused(p + [l], SpokenStep(ended, spoken, done, l).value)
  {
    if spoken.Some? {
      CausedLater(p, l, spoken.value);
    }
    if (l.Decide? || l.RespWrite?) && !ended {
      CausedLater(p, l, done.value);
    }
    assert l in p + [l];
  }

  lemma SpokenNow(cfg: Config, start: nat, p: seq<Label>, l: Label)
    requires Valid(cfg, start, p) && Enabled(cfg, Exec(cfg, start, p), l)
    ensures (l.Decide? || l.RespWrite?) && Exec(cfg, start, p).c.endedAt.None? ==> DoResult(p).Some? && Caused(p, DoResult(p).value)
  {
    if (l.Decide? || l.RespWrite?) && Exec(cfg, start, p).c.endedAt.None? {
      ConnectorSays(cfg, start, p);
      ExecHonest(cfg, start, p);
      ResultSpoken(cfg, start, Exec(cfg, start, p), Spoken(cfg, start, p), DoResult(p), l);
      ResultCaused(p);
    }
  }

  lemma {:induction false} SpokenCaused(cfg: Config, start: nat, run: seq<Label>)
    requires Valid(cfg, start, run)
    ensures Spoken(cfg, start, run).Some? ==> Caused(run, Spoken(cfg, start, run).value)
    decreases |run|
  {
    if run != [] {
      var p, l := run[..|run| - 1], run[|run| - 1];
      var s, spoken, done := Exec(cfg, start, p), Spoken(cfg, start, p), DoResult(p);
      SpokenCaused(cfg, start, p);
      SpokenNow(cfg, start, p, l);
      SpokenStepCaused(p, s.c.endedAt.Some?, spoken, done, l);
      assert run == p + [l];
    }
  }

  /** Every reply that is on the wire or has arrived comes from the event it reports: proxied headers from
      the origin's own (or the connector's 400), a broken stream from that very failure. */
  lemma RepliesCaused(cfg: Config, start: nat, run: seq<Label>)
    requires Valid(cfg, start, run)
    ensures var s := Exec(cfg, start, run);
            && (s.c.wire.Some? ==> Caused(run, s.c.wire.value))
            && (s.arrived.Some? ==> Caused(run, s.arrived.value.what))
  {
    ConnectorSays(cfg, start, run);
    SpokenCaused(cfg, start, run);
  }

  predicate DoLabel(l: Label) { l.OriginHeaders? || l.OriginError? || l.ConnTimeout? || l.CtxAbort? }

  /** `client.Do` ends once, and its result stays. */
  lemma {:induction false} OneResult(cfg: Config, start: nat, run: seq<Label>)
    requires Valid(cfg, start, run)
    ensures forall l | l in run && DoLabel(l) :: DoResult(run) == DoStep(None, l)
    decreases |run|
  {
    if run != [] {
      var p := run[..|run| - 1];
      OneResult(cfg, start, p);
      ConnectorSays(cfg, start, p);
      assert run == p + [run[|run| - 1]];
    }
  }

  /** The failure behind a reset stream is what the edge is told: an origin error or the connector's own
      timeout, judged before the context ended, is on the wire or has arrived as a broken stream with
      that very cause, unless the connection was lost. */
  lemma FailureTold(cfg: Config, start: nat, run: seq<Label>, l: Label)
    requires Valid(cfg, start, run) && l in run && (l.OriginError? || l.ConnTimeout?) && DecidedInTime(cfg, start, run)
    ensures var s, told := Exec(cfg, start, run), Broken(false, if l.OriginError? then OriginFailed else ConnectorTimedOut);
            && (s.arrived.None? ==> s.c.wire == Some(told))
            && (s.arrived.Some? ==> s.arrived.value.what == told || exists timeout :: Lose(timeout) in run)
  {
    ResetIff(cfg, start, run);
    ConnectorSays(cfg, start, run);
    OneResult(cfg, start, run);
  }

  /** An origin that never answers, a connector that understands the request, and a connection that holds. */
  ghost predicate SilentOrigin(run: seq<Label>) {
    forall l | l in run :: !l.OriginHeaders? && !l.OriginError? && !l.ConnUnreadable? && !l.ConnBadTarget? && !l.Lose?
  }

  /** With a silent origin and a client that stays, a forwarded request ends as a 1014 if the connector's
      timeout reaches the edge before the request context ends, and otherwise as a 524. */
  lemma SilentOriginOutcome(cfg: Config, start: nat, run: seq<Label>)
    requires Valid(cfg, start, run) && SilentOrigin(run)
    requires Exec(cfg, start, run).edge.Done? && Exec(cfg, start, run).forwardedAt.Some? && Exec(cfg, start, run).cancelAt.None?
    ensures var s := Exec(cfg, start, run);
            if s.arrived.Some? && Max(s.arrived.value.at, s.forwardedAt.value) < start + cfg.edgeTimeout
            then Reported(s, CFError(502, 1014)) && s.arrived.value.what == Broken(false, ConnectorTimedOut) && 0 < cfg.connTimeout < cfg.edgeTimeout
            else Reported(s, CFError(524, 524))
  {
    var s := Exec(cfg, start, run);
    RepliesCaused(cfg, start, run);
    ExecKeeps(cfg, start, run);
    ExecHonest(cfg, start, run);
    SilentFinish(cfg, start, s);
  }

  lemma SilentFinish(cfg: Config, start: nat, s: State)
    requires Clocked(cfg, start, s) && Finished(s) && s.forwardedAt.Some? && s.cancelAt.None?
    requires s.arrived.Some? ==> s.arrived.value.what == Broken(false, ConnectorTimedOut)
    ensures if s.arrived.Some? && Max(s.arrived.value.at, s.forwardedAt.value) < start + cfg.edgeTimeout
            then Reported(s, CFError(502, 1014)) else Reported(s, CFError(524, 524))
  {
  }

  /** From the first instant on, a request at the connector. */
  lemma AskedAtOnce(cfg: Config, start: nat) returns (run: seq<Label>)
    ensures Valid(cfg, start, run) && Waits(Exec(cfg, start, run))
    ensures var s := Exec(cfg, start, run);
            && s.now == start && s.c.pc == Asking(start) && s.ctxDeadline == s.streamDeadline == start + cfg.edgeTimeout
  {
    run := Nothing(cfg, start);
    run := Extend(cfg, start, run, PickOk);
    run := Extend(cfg, start, run, OpenOk);
    run := Extend(cfg, start, run, ForwardOk);
    run := Extend(cfg, start, run, ConnReads);
  }

  lemma TimeoutArrives(cfg: Config, start: nat) returns (run: seq<Label>)
    requires 0 < cfg.connTimeout < cfg.edgeTimeout
    ensures Valid(cfg, start, run)
    ensures var s := Exec(cfg, start, run);
            && s.now == start + cfg.connTimeout && s.edge.Reading? && s.cancelAt.None? && Silent(s)
            && s.arrived == Some(Arrival(Broken(false, ConnectorTimedOut), s.now)) && s.ctxDeadline == start + cfg.edgeTimeout
  {
    run := AskedAtOnce(cfg, start);
    run := Extend(cfg, start, run, Tick(start + cfg.connTimeout));
    run := Extend(cfg, start, run, ConnTimeout);
    run := Extend(cfg, start, run, Decide);
    run := Extend(cfg, start, run, Deliver);
  }

  lemma TimeoutPassed(cfg: Config, start: nat) returns (run: seq<Label>)
    requires 0 < cfg.connTimeout < cfg.edgeTimeout
    ensures Valid(cfg, start, run)
    ensures var s := Exec(cfg, start, run);
            && s.now == start + cfg.connTimeout < s.ctxDeadline && s.edge.Passed? && Silent(s)
            && s.end.Some? && s.end.value.what == Got(Broken(false, ConnectorTimedOut))
  {
    run := TimeoutArrives(cfg, start);
    run := Extend(cfg, start, run, ReadReturns(false));
    run := Extend(cfg, start, run, Check);
  }

  /** It happens for every connector timeout shorter than the edge's: a 1014 at that very instant. */
  lemma TimeoutReported(cfg: Config, start: nat) returns (run: seq<Label>)
    requires 0 < cfg.connTimeout < cfg.edgeTimeout
    ensures Valid(cfg, start, run) && Exec(cfg, start, run).now == start + cfg.connTimeout
    ensures Exec(cfg, start, run).edge.Done? && Reported(Exec(cfg, start, run), CFError(502, 1014))
  {
    run := TimeoutPassed(cfg, start);
    run := ReportLine(cfg, start, run);
  }

  // ------------------------------------------------------------- releasing the origin

  /** An origin request does not outlive its context: at that very instant it can end, and time
      cannot pass before it has. */
  ghost predicate Prompt(cfg: Config, now: nat, c: Connector) {
    && (c.endedAt.Some? ==> c.endedAt.value <= now)
    && (c.endedAt.Some? && c.pc.Asking? ==> now == c.endedAt.value)
    && (c.pc.Asking? && cfg.connTimeout > 0 ==> now <= c.pc.since + cfg.connTimeout)
  }

  lemma PromptConnector(cfg: Config, now: nat, c: Connector, l: Label)
    requires Prompt(cfg, now, c)
    ensures Prompt(cfg, now, OnConnector(c, now, l))
  {
  }

  lemma PromptStep(cfg: Config, s: State, l: Label)
    requires Prompt(cfg, s.now, s.c) && Enabled(cfg, s, l)
    ensures Prompt(cfg, Step(cfg, s, l).now, Step(cfg, s, l).c)
  {
    if ConnectorStep(l) {
      PromptConnector(cfg, s.now, s.c, l);
    } else if !ArrivalStep(l) {
      StreamFrame(cfg, s, l);
    }
  }

  lemma {:induction false} ExecPrompt(cfg: Config, start: nat, run: seq<Label>)
    requires Valid(cfg, start, run)
    ensures Prompt(cfg, Exec(cfg, start, run).now, Exec(cfg, start, run).c)
    decreases |run|
  {
    if run != [] {
      ExecPrompt(cfg, start, run[..|run| - 1]);
      PromptStep(cfg, Exec(cfg, start, run[..|run| - 1]), run[|run| - 1]);
    }
  }

  /** No new question, no reset, no bytes. */
  ghost predicate Subsides(c: Connector, c': Connector) {
    && c'.endedAt == c.endedAt
    && (c'.pc.Asking? ==> c'.pc == c.pc)
    && (c'.pc.Reset? <==> c.pc.Reset?)
    && (c'.wire == c.wire || c'.wire == None)
  }

  lemma SubsideStep(cfg: Config, s: State, l: Label)
    requires Enabled(cfg, s, l) && s.c.endedAt.Some?
    ensures Subsides(s.c, Step(cfg, s, l).c)
  {
    if !ArrivalStep(l) && !ConnectorStep(l) {
      StreamFrame(cfg, s, l);
    }
  }

  /** Once the context has ended, in every continuation: the connector never asks the origin again,
      and the stream is reset only if it was already; nothing more is sent. */
  lemma {:induction false} EndedSubsides(cfg: Config, start: nat, p: seq<Label>, q: seq<Label>)
    requires Valid(cfg, start, p + q) && Valid(cfg, start, p) && Exec(cfg, start, p).c.endedAt.Some?
    ensures Subsides(Exec(cfg, start, p).c, Exec(cfg, start, p + q).c)
    decreases |q|
  {
    if q == [] {
      assert p + q == p;
    } else {
      assert (p + q)[..|p + q| - 1] == p + q[..|q| - 1];
      EndedSubsides(cfg, start, p, q[..|q| - 1]);
      SubsideStep(cfg, Exec(cfg, start, p + q[..|q| - 1]), q[|q| - 1]);
    }
  }

  lemma {:induction false} DoneStays(cfg: Config, start: nat, p: seq<Label>, q: seq<Label>)
    requires Valid(cfg, start, p + q) && Valid(cfg, start, p) && Exec(cfg, start, p).edge.Done?
    ensures Exec(cfg, start, p + q).edge.Done? && Exec(cfg, start, p + q).openedAt == Exec(cfg, start, p).openedAt
    decreases |q|
  {
    if q == [] {
      assert p + q == p;
    } else {
      assert (p + q)[..|p + q| - 1] == p + q[..|q| - 1];
      DoneStays(cfg, start, p, q[..|q| - 1]);
      DoneStep(cfg, Exec(cfg, start, p + q[..|q| - 1]), q[|q| - 1]);
    }
  }

  lemma DoneStep(cfg: Config, s: State, l: Label)
    requires s.edge.Done? && Enabled(cfg, s, l)
    ensures Step(cfg, s, l).edge.Done? && Step(cfg, s, l).openedAt == s.openedAt
  {
    DoneIdle(cfg, s, l);
  }

  /** A handler that has returned takes no further step. */
  lemma DoneIdle(cfg: Config, s: State, l: Label)
    requires s.edge.Done? && Enabled(cfg, s, l)
    ensures !SetupStep(l) && !ReadStep(l) && !ReportStep(l)
    ensures OnTime(s, l).edge == s.edge && OnTime(s, l).openedAt == s.openedAt
    ensures OnArrival(s, l).edge == s.edge && OnArrival(s, l).openedAt == s.openedAt
  {
  }

  /** Nothing else ends the stream's context: STOP_SENDING has been sent, or the connector has lost the
      connection. */
  lemma {:induction false} EndedBecause(cfg: Config, start: nat, run: seq<Label>)
    requires Valid(cfg, start, run)
    ensures Exec(cfg, start, run).c.endedAt.Some? ==> Exec(cfg, start, run).stopSent || ConnLose in run
    decreases |run|
  {
    if run != [] {
      var p, l := run[..|run| - 1], run[|run| - 1];
      var s := Exec(cfg, start, p);
      EndedBecause(cfg, start, p);
      ExecKeeps(cfg, start, p);
      assert run == p + [l];
      EndStep(cfg, s, l);
      if s.stopSent {
        DoneStep(cfg, s, l);
        ExecKeeps(cfg, start, run);
      }
    }
  }

  lemma EndStep(cfg: Config, s: State, l: Label)
    requires Enabled(cfg, s, l)
    ensures Step(cfg, s, l).c.endedAt.Some? ==> s.c.endedAt.Some? || l.ConnLose? || s.stopSent
  {
    if !ArrivalStep(l) && !ConnectorStep(l) {
      StreamFrame(cfg, s, l);
    }
  }

  /** Giving up releases the origin, in every continuation `q` of a run `p` in which the handler of an
      opened stream has returned. On whichever path it returned, STOP_SENDING has been sent and stays
      so. And once the stream's context has ended at the connector, at instant t: past t no origin
      request is running, none is ever started again, the stream is not reset unless it was, and
      nothing more is sent. */
  lemma OriginReleased(cfg: Config, start: nat, p: seq<Label>, q: seq<Label>)
    requires Valid(cfg, start, p + q) && Valid(cfg, start, p)
    requires Exec(cfg, start, p).edge.Done? && Exec(cfg, start, p).openedAt.Some?
    ensures Exec(cfg, start, p).stopSent && Exec(cfg, start, p + q).stopSent
    ensures var c, f := Exec(cfg, start, p).c, Exec(cfg, start, p + q);
            c.endedAt.Some? ==> (f.now > c.endedAt.value ==> !f.c.pc.Asking?) && Subsides(c, f.c)
  {
    DoneStays(cfg, start, p, q);
    StopWasSent(cfg, start, p);
    StopWasSent(cfg, start, p + q);
    if Exec(cfg, start, p).c.endedAt.Some? {
      EndedSubsides(cfg, start, p, q);
      ExecPrompt(cfg, start, p + q);
    }
  }

  lemma StopWasSent(cfg: Config, start: nat, run: seq<Label>)
    requires Valid(cfg, start, run) && Exec(cfg, start, run).edge.Done? && Exec(cfg, start, run).openedAt.Some?
    ensures Exec(cfg, start, run).stopSent
  {
    ExecKeeps(cfg, start, run);
  }

  /** Some reset decision was taken while the stream's context had not ended. */
  ghost predicate DecidedInTime(cfg: Config, start: nat, run: seq<Label>)
    requires Valid(cfg, start, run)
    decreases |run|
  {
    run != [] &&
    var p := run[..|run| - 1];
    DecidedInTime(cfg, start, p) || (run[|run| - 1].Decide? && Exec(cfg, start, p).c.endedAt.None?)
  }

  lemma ResetStep(cfg: Config, s: State, l: Label)
    requires Enabled(cfg, s, l)
    ensures Step(cfg, s, l).c.pc.Reset? <==> s.c.pc.Reset? || (l.Decide? && s.c.endedAt.None?)
  {
    if !ArrivalStep(l) && !ConnectorStep(l) {
      StreamFrame(cfg, s, l);
    }
  }

  /** Only the decision resets the stream, and a reset is final: the stream is reset, so that the edge
      reports the failure, if and only if a failure of `client.Do` was judged before the context ended. */
  lemma {:induction false} ResetIff(cfg: Config, start: nat, run: seq<Label>)
    requires Valid(cfg, start, run)
    ensures Exec(cfg, start, run).c.pc.Reset? <==> DecidedInTime(cfg, start, run)
    decreases |run|
  {
    if run != [] {
      ResetIff(cfg, start, run[..|run| - 1]);
      ResetStep(cfg, Exec(cfg, start, run[..|run| - 1]), run[|run| - 1]);
    }
  }
}
