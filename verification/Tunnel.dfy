/** The edge's control goroutine: `serveControl` reads messages off the connector's control stream
    and turns each into a change of that connector's registry entry. */
module Tunnel {
  import opened ControlProto
  import Registry

  /** What one message does; unknown types are ignored. */
  function ChangeOf(m: Msg): seq<Registry.Change> {
    if m.t == "register" then [Registry.Register(m.hostname, m.haID)]
    else if m.t == "ping" then [Registry.Ping]
    else if m.t == "unregister" then [Registry.Unregister]
    else []
  }

  function ChangesOf(ms: seq<Msg>): seq<Registry.Change> {
    if ms == [] then [] else ChangeOf(ms[0]) + ChangesOf(ms[1..])
  }

  lemma {:induction false} ChangesConcat(a: seq<Msg>, b: seq<Msg>)
    ensures ChangesOf(a + b) == ChangesOf(a) + ChangesOf(b)
    decreases |a|
  {
    if a == [] {
      assert a + b == b;
    } else {
      ChangesConcat(a[1..], b);
      assert (a + b)[1..] == a[1..] + b;
    }
  }

  lemma SkipOne(m: Msg, b: seq<Msg>)
    requires ChangeOf(m) == []
    ensures ChangesOf([m] + b) == ChangesOf(b)
  {
    assert ([m] + b)[1..] == b;
  }

  /** A message of an unknown type changes nothing, wherever it stands. */
  lemma UnknownTypeIgnored(a: seq<Msg>, m: Msg, b: seq<Msg>)
    requires m.t != "register" && m.t != "ping" && m.t != "unregister"
    ensures ChangesOf(a + [m] + b) == ChangesOf(a + b)
  {
    assert a + [m] + b == a + ([m] + b);
    ChangesConcat(a, [m] + b);
    ChangesConcat(a, b);
    SkipOne(m, b);
  }

  lemma ChangesStep(text: string)
    ensures var (r, rest) := ReadFrom(text, Decode);
            ChangesOf(ReadAll(text, Decode).0) == if r.Err? then [] else ChangeOf(r.msg) + ChangesOf(ReadAll(rest, Decode).0)
  {
    var (r, rest) := ReadFrom(text, Decode);
    if r.Ok? {
      var ms := ReadAll(text, Decode).0;
      assert ms[1..] == ReadAll(rest, Decode).0;
    }
  }

  /** The changes `serveControl` applies, in order: those of the messages up to the first read error,
      whatever it is, and then the end of the stream, which unregisters. */
  method ServeControl(control: ControlStream) returns (changes: seq<Registry.Change>)
    modifies control
    ensures changes == ChangesOf(ReadAll(old(control.unread), Decode).0) + [Registry.Eof]
  {
    changes := [];
    while true
      invariant changes + ChangesOf(ReadAll(control.unread, Decode).0) == ChangesOf(ReadAll(old(control.unread), Decode).0)
      decreases |control.unread|
    {
      ChangesStep(control.unread);
      ghost var before := changes;
      var msg := control.Read();
      if msg.Err? {
        assert before + [] == before;
        return changes + [Registry.Eof];
      }
      changes := changes + ChangeOf(msg.msg);
    }
  }

  /** An empty host name is sent as "local". */
  function NameOf(host: string): string { if host == "" then "local" else host }

  const PING: Msg := Msg("ping", "", 0, "")
  const UNREGISTER: Msg := Msg("unregister", "", 0, "shutdown")

  /** The connector's side of one connection: a register, and then whatever order the ping loop and,
      on shutdown, the unregistering goroutine come to write in (a ping may follow the unregister). */
  ghost predicate IsSession(ms: seq<Msg>, host: string, haID: Int64) {
    forall i | 0 <= i < |ms| ::
      if i == 0 then ms[i] == Msg("register", NameOf(host), haID, "") else ms[i] == PING || ms[i] == UNREGISTER
  }

  lemma {:induction false} TailChanges(ms: seq<Msg>)
    requires forall i | 0 <= i < |ms| :: ms[i] == PING || ms[i] == UNREGISTER
    ensures |ChangesOf(ms)| == |ms|
    ensures forall i | 0 <= i < |ms| :: ChangesOf(ms)[i] == if ms[i] == PING then Registry.Ping else Registry.Unregister
    decreases |ms|
  {
    if ms != [] {
      TailChanges(ms[1..]);
      assert ChangeOf(ms[0]) == [if ms[0] == PING then Registry.Ping else Registry.Unregister];
    }
  }

  /** A session's messages, one by one: a register under the session's names, pings and unregisters,
      all of a kind that `WireChanges` carries. */
  lemma SessionChanges(ms: seq<Msg>, host: string, haID: Int64)
    requires IsSession(ms, host, haID)
    ensures |ChangesOf(ms)| == |ms|
    ensures forall i | 0 <= i < |ms| ::
              && ms[i].t != ""
              && ChangesOf(ms)[i] == if i == 0 then Registry.Register(if host == "" then "local" else host, haID)
                                     else if ms[i] == PING then Registry.Ping else Registry.Unregister
  {
    if ms != [] {
      assert forall i | 0 <= i < |ms[1..]| :: ms[1..][i] == ms[i + 1];
      TailChanges(ms[1..]);
      assert ChangeOf(ms[0]) == [Registry.Register(NameOf(host), haID)];
    }
  }

  ghost predicate Typed(ms: seq<Msg>) { forall i | 0 <= i < |ms| :: ms[i].t != "" }

  /** Over the wire nothing is lost or reordered: the changes read are those of the messages written. */
  lemma WireChanges(ms: seq<Msg>)
    requires Typed(ms)
    ensures ChangesOf(ReadAll(WriteAll(ms, Marshal), Decode).0) == ChangesOf(ms)
  {
    StreamRoundTrip(ms);
  }

  // ------------------------------------------------------------- from the wire to the registry

  /** The control events of one connector, in the order a run of the registry applies them. */
  function Applied(run: seq<Registry.Event>, id: nat): seq<Registry.Change> {
    if run == [] then []
    else
      var rest, op := Applied(run[..|run| - 1], id), run[|run| - 1].op;
      if op.Control? && op.id == id then rest + [op.ch] else rest
  }

  /** All that `ServeControl` applies when the peer wrote these messages and closed. */
  function Carried(ms: seq<Msg>): seq<Registry.Change> {
    ChangesOf(ReadAll(WriteAll(ms, Marshal), Decode).0) + [Registry.Eof]
  }

  /** Registered after these changes: the last one that is not a ping is a register. */
  predicate Registered(chs: seq<Registry.Change>) {
    chs != [] &&
    (chs[|chs| - 1].Register? || (chs[|chs| - 1].Ping? && Registered(chs[..|chs| - 1])))
  }

  lemma AppliedStep(p: seq<Registry.Event>, e: Registry.Event, id: nat)
    ensures var chs := Applied(p + [e], id);
            && (Registry.Registers(e, id) ==> Registered(chs))
            && (Registry.Retires(e, id) ==> !Registered(chs))
            && (!Registry.Registers(e, id) && !Registry.Retires(e, id) ==> (Registered(chs) <==> Registered(Applied(p, id))))
  {
    assert (p + [e])[..|p|] == p;
    var chs := Applied(p + [e], id);
    if e.op.Control? && e.op.id == id {
      assert chs[..|chs| - 1] == Applied(p, id);
    }
  }

  lemma {:induction false} RegisteredByChanges(run: seq<Registry.Event>, id: nat)
    ensures Registry.RegisteredIn(run, id) <==> Registered(Applied(run, id))
    decreases |run|
  {
    if run != [] {
      var p, e := run[..|run| - 1], run[|run| - 1];
      RegisteredByChanges(p, id);
      Registry.RegisteredStep(p, e, id);
      AppliedStep(p, e, id);
      assert run == p + [e];
    }
  }

  lemma {:induction false} AppliedIn(run: seq<Registry.Event>, id: nat)
    ensures forall k | 0 <= k < |run| && Registry.Registers(run[k], id) :: run[k].op.ch in Applied(run, id)
    ensures (forall k | 0 <= k < |run| :: !Registry.Registers(run[k], id)) ==>
              forall ch | ch in Applied(run, id) :: !ch.Register?
    decreases |run|
  {
    if run != [] {
      AppliedIn(run[..|run| - 1], id);
    }
  }

  /** Changes of one session so far: a register, unless the stream ended first, and
      no other. */
  ghost predicate Follows(chs: seq<Registry.Change>, name: string, haID: int) {
    forall i | 0 <= i < |chs| ::
      if i == 0 then chs[i] == Registry.Register(name, haID) || chs[i].Eof? else !chs[i].Register?
  }

  ghost predicate Effect(chs: seq<Registry.Change>, name: string, haID: int) {
    forall i | 0 <= i < |chs| ::
      if i == 0 then chs[i] == Registry.Register(name, haID) else chs[i].Ping? || chs[i].Unregister?
  }

  lemma SessionEffect(ms: seq<Msg>, host: string, haID: Int64)
    requires IsSession(ms, host, haID)
    ensures Typed(ms) && Effect(ChangesOf(ms), NameOf(host), haID)
  {
    SessionChanges(ms, host, haID);
  }

  lemma EffectFollows(chs: seq<Registry.Change>, name: string, haID: int)
    requires Effect(chs, name, haID)
    ensures Follows(chs + [Registry.Eof], name, haID)
  {
  }

  lemma CarriedIs(ms: seq<Msg>)
    requires Typed(ms)
    ensures Carried(ms) == ChangesOf(ms) + [Registry.Eof]
  {
    WireChanges(ms);
  }

  lemma CarriedFollows(ms: seq<Msg>, host: string, haID: Int64)
    requires IsSession(ms, host, haID)
    ensures Follows(Carried(ms), NameOf(host), haID)
  {
    SessionEffect(ms, host, haID);
    CarriedIs(ms);
    EffectFollows(ChangesOf(ms), NameOf(host), haID);
  }

  lemma PrefixFollows(chs: seq<Registry.Change>, all: seq<Registry.Change>, name: string, haID: int)
    requires chs <= all && Follows(all, name, haID)
    ensures Follows(chs, name, haID)
  {
  }

  /** Past the register, and neither unregistered nor at the end of the stream. */
  predicate Up(chs: seq<Registry.Change>) {
    chs != [] && Registry.Unregister !in chs && Registry.Eof !in chs
  }

  lemma {:induction false} RegisteredWhileUp(chs: seq<Registry.Change>, name: string, haID: int)
    requires Follows(chs, name, haID)
    ensures Registered(chs) <==> Up(chs)
    decreases |chs|
  {
    if chs != [] {
      var p := chs[..|chs| - 1];
      RegisteredWhileUp(p, name, haID);
      assert chs == p + [chs[|chs| - 1]];
      if p == [] {
        assert !Registered(p);
      }
    }
  }

  lemma SessionLabels(run: seq<Registry.Event>, c: Registry.Ref, name: string, haID: int)
    requires Follows(Applied(run, c.id), name, haID) && Applied(run, c.id) != [] && Applied(run, c.id)[0].Register?
    requires Registry.LabelsAre(run, c.id, c.hostname, c.haID)
    ensures c.hostname == name && c.haID == haID
  {
    var chs := Applied(run, c.id);
    AppliedIn(run, c.id);
    assert chs[0] in chs;
    var k :| 0 <= k < |run| && Registry.Registers(run[k], c.id) && run[k].op.ch == Registry.Register(c.hostname, c.haID);
    var i :| 0 <= i < |chs| && chs[i] == run[k].op.ch;
  }

  /** The connector has an entry exactly while connected, registered exactly while its session is up,
      under the session's names. */
  ghost predicate ShownAs(run: seq<Registry.Event>, id: nat, name: string, haID: int) {
    var cs, chs := Registry.Exec(run).connectors, Applied(run, id);
    && (Registry.HasID(cs, id) <==> Registry.Open(run, id))
    && (forall i | 0 <= i < |cs| && cs[i].id == id ::
          && (cs[i].registered <==> Up(chs))
          && (chs != [] && chs[0].Register? ==> cs[i].hostname == name && cs[i].haID == haID))
  }

  /** It can be picked only then, and does not miss a pick while its arrivals keep up. */
  ghost predicate PickableWhile(run: seq<Registry.Event>, id: nat, now: nat, keepAlive: int) {
    var picked := Registry.IDs(Registry.LiveOnes(Registry.Exec(run).connectors, now, Registry.StaleAfter(keepAlive)));
    var up := Registry.Open(run, id) && Up(Applied(run, id));
    (id in picked ==> up) && (up && Registry.GapsBelow(run, id, now, keepAlive) ==> id in picked)
  }

  lemma SessionEntries(run: seq<Registry.Event>, id: nat, name: string, haID: int)
    requires Registry.Valid(run) && Follows(Applied(run, id), name, haID)
    ensures ShownAs(run, id, name, haID)
  {
    var cs, chs := Registry.Exec(run).connectors, Applied(run, id);
    Registry.ExecRefines(run);
    RegisteredByChanges(run, id);
    RegisteredWhileUp(chs, name, haID);
    forall i | 0 <= i < |cs| && cs[i].id == id
      ensures Registry.Entry(run, cs[i])
      ensures chs != [] && chs[0].Register? ==> cs[i].hostname == name && cs[i].haID == haID
    {
      if chs != [] && chs[0].Register? {
        SessionLabels(run, cs[i], name, haID);
      }
    }
  }

  lemma SessionLive(run: seq<Registry.Event>, id: nat, name: string, haID: int, now: nat, keepAlive: int)
    requires Registry.Valid(run) && Follows(Applied(run, id), name, haID)
    ensures PickableWhile(run, id, now, keepAlive)
  {
    RegisteredByChanges(run, id);
    RegisteredWhileUp(Applied(run, id), name, haID);
    Registry.PickedFromLive(run, now, keepAlive);
    if Registry.Open(run, id) && Registry.RegisteredIn(run, id) && Registry.GapsBelow(run, id, now, keepAlive) {
      assert run[..|run|] == run;
      Registry.NoFalseStaleness(run, |run|, now, now, id, keepAlive);
    }
  }

  /** End to end, whatever the other connections do and however pings and unregister are interleaved:
      a connector that writes one session is registered, under the session's names, exactly from its
      register to its unregister or the end of its stream; only then, and only while connected, can it
      be picked, and if its arrivals keep up with the keep-alive it always can. */
  lemma SessionPickable(run: seq<Registry.Event>, id: nat, ms: seq<Msg>, host: string, haID: Int64, now: nat, keepAlive: int)
    requires Registry.Valid(run) && IsSession(ms, host, haID)
    ensures Applied(run, id) <= Carried(ms) ==>
              ShownAs(run, id, if host == "" then "local" else host, haID) && PickableWhile(run, id, now, keepAlive)
  {
    if Applied(run, id) <= Carried(ms) {
      CarriedFollows(ms, host, haID);
      PrefixFollows(Applied(run, id), Carried(ms), NameOf(host), haID);
      SessionEntries(run, id, NameOf(host), haID);
      SessionLive(run, id, NameOf(host), haID, now, keepAlive);
    }
  }
}
