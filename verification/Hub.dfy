/** The UI's event hub: bounded per-subscriber channels, a publisher that drops rather than blocks,
    and an unsubscribe that first leaves the subscriber set and then closes the channel. */
module Hub {
  import opened Basics

  const CAP: nat := 512

  /** A channel: what is buffered, what its consumer has received so far, and whether it is closed. */
  datatype Chan = Chan(buf: seq<string>, received: seq<string>, closed: bool)

  const NEW_CHAN: Chan := Chan([], [], false)

  /** A non-blocking send: dropped when the buffer is full. */
  function Offered(ch: Chan, v: string): Chan {
    if |ch.buf| < CAP then ch.(buf := ch.buf + [v]) else ch
  }

  function Published(chans: map<nat, Chan>, subs: set<nat>, v: string): map<nat, Chan> {
    map c | c in chans :: if c in subs then Offered(chans[c], v) else chans[c]
  }

  ghost predicate Safe(subs: set<nat>, chans: map<nat, Chan>) {
    && (forall c | c in subs :: c in chans && !chans[c].closed)
    && (forall c | c in chans :: |chans[c].buf| <= 512)
  }

  class HubObject {
    var subs: set<nat>
    var chans: map<nat, Chan>

    ghost predicate Valid()
      reads this
    {
      Safe(subs, chans)
    }

    constructor ()
      ensures Valid() && subs == {} && chans == map[]
    {
      subs, chans := {}, map[];
    }

    /** `c` names the channel just made. */
    method Sub(c: nat)
      requires Valid() && c !in chans
      modifies this
      ensures Valid() && subs == old(subs) + {c} && chans == old(chans)[c := NEW_CHAN]
    {
      chans := chans[c := NEW_CHAN];
      subs := subs + {c};
    }

    method Unsub(c: nat)
      requires Valid() && c in subs
      modifies this
      ensures Valid() && subs == old(subs) - {c}
      ensures chans == old(chans)[c := old(chans)[c].(closed := true)]
    {
      subs := subs - {c};
      Close(c);
    }

    /** Closing a closed channel, like sending on one, would panic. */
    method Close(c: nat)
      requires Valid() && c in chans && c !in subs && !chans[c].closed
      modifies this`chans
      ensures Valid() && chans == old(chans)[c := old(chans)[c].(closed := true)]
    {
      chans := chans[c := chans[c].(closed := true)];
    }

    method Send(c: nat, v: string)
      requires c in chans && !chans[c].closed
      modifies this`chans
      ensures chans == old(chans)[c := Offered(old(chans)[c], v)]
    {
      if |chans[c].buf| < CAP {
        chans := chans[c := chans[c].(buf := chans[c].buf + [v])];
      } else {
        assert chans == chans[c := chans[c]];
      }
    }

    /** `v` is the encoded value, or nothing when it could not be encoded. */
    method Publish(v: Option<string>)
      requires Valid()
      modifies this`chans
      ensures Valid()
      ensures chans == match v case None => old(chans) case Some(b) => Published(old(chans), subs, b)
    {
      if v.None? {
        return;
      }
      var todo := subs;
      while todo != {}
        invariant todo <= subs && chans.Keys == old(chans).Keys
        invariant forall c | c in chans :: chans[c] == if c in subs - todo then Offered(old(chans)[c], v.value) else old(chans)[c]
        decreases todo
      {
        var c :| c in todo;
        Send(c, v.value);
        todo := todo - {c};
      }
    }
  }

  // ------------------------------------------------------------- runs

  /** The atomic steps; an unsubscribe is two of them. A publish holds the mutex from its first send to
      its last, so that no subscriber comes or goes meanwhile. Receives do not take the mutex, but one
      on a channel touches that channel alone: moved before or after the whole publish, to the side of
      its own channel's send that it was on, it leaves every channel as it was. So one step will do. */
  datatype Event = Sub(c: nat) | Delete(c: nat) | Close(c: nat) | Publish(v: string) | Receive(c: nat)

  /** Where the handler that owns a channel stands: it unsubscribes once, at its end. */
  datatype Handler = Serving | Deleted | Returned

  datatype State = State(subs: set<nat>, chans: map<nat, Chan>, handlers: map<nat, Handler>)

  predicate Stands(s: State, c: nat, h: Handler) { c in s.chans && c in s.handlers && s.handlers[c] == h }

  /** Channels are fresh, and each handler goes through `unsub` in program order. */
  predicate Enabled(s: State, e: Event) {
    match e
    case Sub(c) => c !in s.chans
    case Delete(c) => Stands(s, c, Serving)
    case Close(c) => Stands(s, c, Deleted)
    case Publish(_) => true
    case Receive(c) => c in s.chans && s.chans[c].buf != []
  }

  function Step(s: State, e: Event): State
    requires Enabled(s, e)
  {
    match e
    case Sub(c) => State(s.subs + {c}, s.chans[c := NEW_CHAN], s.handlers[c := Serving])
    case Delete(c) => s.(subs := s.subs - {c}, handlers := s.handlers[c := Deleted])
    case Close(c) => s.(chans := s.chans[c := s.chans[c].(closed := true)], handlers := s.handlers[c := Returned])
    case Publish(v) => s.(chans := Published(s.chans, s.subs, v))
    case Receive(c) =>
      var ch := s.chans[c];
      s.(chans := s.chans[c := ch.(buf := ch.buf[1..], received := ch.received + [ch.buf[0]])])
  }

  ghost predicate Valid(run: seq<Event>)
    decreases |run|, 0
  {
    run == [] || (Valid(run[..|run| - 1]) && Enabled(Exec(run[..|run| - 1]), run[|run| - 1]))
  }

  ghost function Exec(run: seq<Event>): State
    requires Valid(run)
    decreases |run|, 1
  {
    if run == [] then State({}, map[], map[]) else Step(Exec(run[..|run| - 1]), run[|run| - 1])
  }

  /** The subscribers are the channels whose handlers are serving, and the closed ones those of the
      handlers that have returned. */
  ghost predicate Orderly(s: State) {
    && s.chans.Keys == s.handlers.Keys
    && (forall c :: c in s.subs <==> Stands(s, c, Serving))
    && (forall c | c in s.chans :: |s.chans[c].buf| <= 512 && (s.chans[c].closed <==> s.handlers[c] == Returned))
  }

  lemma StepOrderly(s: State, e: Event)
    requires Orderly(s) && Enabled(s, e)
    ensures Orderly(Step(s, e))
  {
  }

  lemma {:induction false} ExecOrderly(run: seq<Event>)
    requires Valid(run)
    ensures Orderly(Exec(run))
    decreases |run|
  {
    if run != [] {
      ExecOrderly(run[..|run| - 1]);
      StepOrderly(Exec(run[..|run| - 1]), run[|run| - 1]);
    }
  }

  /** No send hits a closed channel (sends go to `subs` only), no buffer outgrows its capacity, and a
      channel about to be closed is still open. */
  lemma NeverUnsafe(run: seq<Event>)
    requires Valid(run)
    ensures Safe(Exec(run).subs, Exec(run).chans)
    ensures forall c | Enabled(Exec(run), Close(c)) :: !Exec(run).chans[c].closed
  {
    ExecOrderly(run);
  }

  // ------------------------------------------------------------- what one subscriber sees

  /** `c` has been subscribed and its unsubscribe has not begun. */
  ghost predicate Subscribed(run: seq<Event>, c: nat) {
    Sub(c) in run && Delete(c) !in run
  }

  ghost predicate HasRoom(run: seq<Event>, c: nat)
    requires Valid(run)
  {
    c in Exec(run).chans && |Exec(run).chans[c].buf| < 512
  }

  /** Positions in the run of what was published while `c` was subscribed. */
  ghost function Sent(run: seq<Event>, c: nat): seq<nat> {
    if run == [] then []
    else
      var p := run[..|run| - 1];
      if run[|run| - 1].Publish? && Subscribed(p, c) then Sent(p, c) + [|p|] else Sent(p, c)
  }

  /** Those of them that found room in its buffer. */
  ghost function Kept(run: seq<Event>, c: nat): seq<nat>
    requires Valid(run)
  {
    if run == [] then []
    else
      var p := run[..|run| - 1];
      if run[|run| - 1].Publish? && Subscribed(p, c) && HasRoom(p, c) then Kept(p, c) + [|p|] else Kept(p, c)
  }

  function Item(run: seq<Event>, k: nat): string {
    if k < |run| && run[k].Publish? then run[k].v else ""
  }

  ghost predicate Lists(run: seq<Event>, ks: seq<nat>, items: seq<string>) {
    |ks| == |items| && forall i | 0 <= i < |ks| :: ks[i] < |run| && run[ks[i]].Publish? && items[i] == Item(run, ks[i])
  }

  function Stream(ch: Chan): seq<string> { ch.received + ch.buf }

  lemma {:induction false} SubscribedIsMember(run: seq<Event>, c: nat)
    requires Valid(run)
    ensures Subscribed(run, c) <==> c in Exec(run).subs
    ensures Sub(c) in run <==> c in Exec(run).chans
    ensures Delete(c) in run ==> c in Exec(run).chans
    decreases |run|
  {
    if run != [] {
      var p, e := run[..|run| - 1], run[|run| - 1];
      assert run == p + [e];
      SubscribedIsMember(p, c);
      ExecOrderly(p);
    }
  }

  /** Received plus buffered is, in order, exactly what was kept. */
  lemma {:induction false} StreamIsKept(run: seq<Event>, c: nat)
    requires Valid(run)
    ensures c in Exec(run).chans ==> Lists(run, Kept(run, c), Stream(Exec(run).chans[c]))
    ensures c !in Exec(run).chans ==> Kept(run, c) == []
    decreases |run|
  {
    if run != [] {
      var p, e := run[..|run| - 1], run[|run| - 1];
      assert run == p + [e];
      StreamIsKept(p, c);
      SubscribedIsMember(p, c);
      NeverUnsafe(p);
      if c in Exec(p).chans && e == Receive(c) {
        var ch := Exec(p).chans[c];
        assert ch.received + [ch.buf[0]] + ch.buf[1..] == Stream(ch);
      }
      if c in Exec(p).chans && e.Publish? && c in Exec(p).subs && HasRoom(p, c) {
        assert Stream(Exec(run).chans[c]) == Stream(Exec(p).chans[c]) + [e.v];
      }
    }
  }

  ghost predicate Increasing(ks: seq<nat>) {
    forall i, j | 0 <= i < j < |ks| :: ks[i] < ks[j]
  }

  /** When the publish at position k came, the buffer of `c` was full. */
  ghost predicate FullAt(run: seq<Event>, k: nat, c: nat) {
    k < |run| && Valid(run[..k]) && c in Exec(run[..k]).chans && |Exec(run[..k]).chans[c].buf| == 512
  }

  lemma {:induction false} Positions(run: seq<Event>, c: nat)
    requires Valid(run)
    ensures Increasing(Kept(run, c))
    ensures forall k | k in Kept(run, c) :: k in Sent(run, c)
    ensures forall k | k in Sent(run, c) :: k < |run|
    decreases |run|
  {
    if run != [] {
      var p := run[..|run| - 1];
      Positions(p, c);
      forall i | 0 <= i < |Kept(p, c)| ensures Kept(p, c)[i] < |p| {
        assert Kept(p, c)[i] in Kept(p, c);
      }
    }
  }

  lemma FullStable(run: seq<Event>, k: nat, c: nat)
    requires run != [] && FullAt(run[..|run| - 1], k, c)
    ensures FullAt(run, k, c)
  {
    assert run[..|run| - 1][..k] == run[..k];
  }

  /** How far the kept positions follow the sent ones: to the end, or to the first drop. */
  lemma {:induction false} KeptFollowsSent(run: seq<Event>, c: nat) returns (m: nat)
    requires Valid(run)
    ensures m <= |Kept(run, c)| && m <= |Sent(run, c)| && Kept(run, c)[..m] == Sent(run, c)[..m]
    ensures m == |Sent(run, c)| ==> m == |Kept(run, c)|
    ensures m < |Sent(run, c)| ==> FullAt(run, Sent(run, c)[m], c)
    decreases |run|
  {
    if run == [] {
      m := 0;
    } else {
      var p := run[..|run| - 1];
      m := KeptFollowsSent(p, c);
      if m < |Sent(p, c)| {
        FullStable(run, Sent(p, c)[m], c);
      } else if run[|run| - 1].Publish? && Subscribed(p, c) {
        if HasRoom(p, c) {
          m := m + 1;
        } else {
          assert run[..|p|] == p;
          SubscribedIsMember(p, c);
          NeverUnsafe(p);
        }
      }
    }
  }

  /** Each subscriber's stream is an in-order subsequence of what was published while it was
      subscribed: it agrees with the sent sequence up to position m, where either everything sent was
      kept or the first drop happened, and that drop found the buffer full. */
  lemma StreamInOrder(run: seq<Event>, c: nat) returns (m: nat)
    requires Valid(run) && c in Exec(run).chans
    ensures Lists(run, Kept(run, c), Stream(Exec(run).chans[c]))
    ensures Increasing(Kept(run, c)) && forall k | k in Kept(run, c) :: k in Sent(run, c)
    ensures m <= |Kept(run, c)| && m <= |Sent(run, c)| && Kept(run, c)[..m] == Sent(run, c)[..m]
    ensures m == |Sent(run, c)| ==> Kept(run, c) == Sent(run, c)
    ensures m < |Sent(run, c)| ==> FullAt(run, Sent(run, c)[m], c)
  {
    StreamIsKept(run, c);
    Positions(run, c);
    m := KeptFollowsSent(run, c);
  }

  /** Any two subscribers that both got two messages got them in the same order. */
  lemma SubscribersAgree(run: seq<Event>, c: nat, d: nat, i: nat, j: nat, i': nat, j': nat)
    requires Valid(run)
    requires i < |Kept(run, c)| && j < |Kept(run, c)| && i' < |Kept(run, d)| && j' < |Kept(run, d)|
    requires Kept(run, c)[i] == Kept(run, d)[i'] && Kept(run, c)[j] == Kept(run, d)[j']
    ensures i < j <==> i' < j'
  {
    Positions(run, c);
    Positions(run, d);
  }
}
