/** The token pacer: each call takes the next start slot, whether or not its caller lives to use it. */
module Pacer {
  import opened Basics
  import opened Division

  /** The slot granted to a call at `now`. A zero `next` means no slot was taken yet. */
  function Slot(next: Option<nat>, now: nat): nat {
    if next.None? || next.value <= now then now else next.value
  }

  predicate Alive(cancelAt: Option<nat>, t: nat) { cancelAt.None? || cancelAt.value > t }

  class TokenPacer {
    const interval: nat
    var next: Option<nat>

    constructor (interval: nat)
      ensures this.interval == interval && next == None
    {
      this.interval, next := interval, None;
    }

    /** `cancelAt` is when the context ends; `tie` settles a timer and a cancellation at one instant. */
    method Wait(now: nat, cancelAt: Option<nat>, tie: bool) returns (ok: bool, slot: nat)
      modifies this`next
      ensures slot == Slot(old(next), now) && next == Some(slot + interval)
      ensures cancelAt != Some(slot) || slot == now ==> (ok <==> Alive(cancelAt, slot))
    {
      if next.None? || next.value <= now {
        next := Some(now + interval);
        return Alive(cancelAt, now), now;
      }
      slot := next.value;
      next := Some(slot + interval);
      ok := if cancelAt == Some(slot) then tie else Alive(cancelAt, slot);
    }
  }

  /** A nil pacer does not pace. */
  method WaitOn(p: TokenPacer?, now: nat, cancelAt: Option<nat>, tie: bool) returns (ok: bool)
    modifies if p == null then {} else {p}
    ensures p == null ==> (ok <==> Alive(cancelAt, now))
    ensures p != null ==>
              var slot := Slot(old(p.next), now);
              && p.next == Some(slot + p.interval)
              && (cancelAt != Some(slot) || slot == now ==> (ok <==> Alive(cancelAt, slot)))
  {
    if p == null {
      return Alive(cancelAt, now);
    }
    var slot;
    ok, slot := p.Wait(now, cancelAt, tie);
  }

  // ------------------------------------------------------------- the slots of a run of calls

  function NextAfter(slots: seq<nat>, interval: nat): Option<nat> {
    if slots == [] then None else Some(slots[|slots| - 1] + interval)
  }

  /** The slots granted to calls at these times, in lock order. */
  function Slots(nows: seq<nat>, interval: nat): (slots: seq<nat>)
    ensures |slots| == |nows|
  {
    if nows == [] then []
    else
      var before := Slots(nows[..|nows| - 1], interval);
      before + [Slot(NextAfter(before, interval), nows[|nows| - 1])]
  }

  lemma SlotsPrefix(nows: seq<nat>, interval: nat, i: nat)
    requires i < |nows|
    ensures Slots(nows[..i + 1], interval) == Slots(nows, interval)[..i + 1]
    ensures Slots(nows, interval)[i]
         == if i == 0 then nows[0] else Slot(Some(Slots(nows, interval)[i - 1] + interval), nows[i])
    decreases |nows|
  {
    if i + 1 < |nows| {
      var p := nows[..|nows| - 1];
      SlotsPrefix(p, interval, i);
      assert p[..i + 1] == nows[..i + 1];
    } else {
      assert nows[..i + 1] == nows;
    }
  }

  /** `v` is the greatest of now_j + (i - j) * interval over the calls j <= i. */
  ghost predicate IsForced(nows: seq<nat>, interval: nat, i: nat, v: nat)
    requires i < |nows|
  {
    && (forall j | 0 <= j <= i :: nows[j] + (i - j) * interval <= v)
    && (exists j :: 0 <= j <= i && nows[j] + (i - j) * interval == v)
  }

  /** The closed form: a slot is exactly what the arrivals so far force. */
  lemma {:induction false} SlotClosedForm(nows: seq<nat>, interval: nat, i: nat)
    requires i < |nows|
    ensures IsForced(nows, interval, i, Slots(nows, interval)[i])
    decreases i
  {
    SlotsPrefix(nows, interval, i);
    var v := Slots(nows, interval)[i];
    if i == 0 {
      assert nows[0] + (i - 0) * interval == v;
    } else {
      SlotClosedForm(nows, interval, i - 1);
      var u := Slots(nows, interval)[i - 1];
      forall j | 0 <= j <= i ensures nows[j] + (i - j) * interval <= v {
        Shift(i, j, interval);
      }
      if v == nows[i] {
        assert nows[i] + (i - i) * interval == v;
      } else {
        var j :| 0 <= j <= i - 1 && nows[j] + (i - 1 - j) * interval == u;
        Shift(i, j, interval);
        assert nows[j] + (i - j) * interval == v;
      }
    }
  }

  lemma Shift(i: int, j: int, interval: nat)
    ensures (i - j) * interval == (i - 1 - j) * interval + interval
  {
  }

  /** Starts that respect every arrival and stay an interval apart. */
  ghost predicate Admissible(nows: seq<nat>, interval: nat, starts: seq<nat>) {
    && |starts| == |nows|
    && (forall i | 0 <= i < |starts| :: nows[i] <= starts[i])
    && (forall i | 0 < i < |starts| :: starts[i - 1] + interval <= starts[i])
  }

  /** The granted slots are admissible, and no admissible schedule starts any call earlier. */
  lemma SlotsLeast(nows: seq<nat>, interval: nat, starts: seq<nat>)
    ensures Admissible(nows, interval, Slots(nows, interval))
    ensures Admissible(nows, interval, starts) ==>
              forall i | 0 <= i < |nows| :: Slots(nows, interval)[i] <= starts[i]
  {
    forall i | 0 <= i < |nows|
      ensures nows[i] <= Slots(nows, interval)[i]
      ensures 0 < i ==> Slots(nows, interval)[i - 1] + interval <= Slots(nows, interval)[i]
    {
      SlotsPrefix(nows, interval, i);
    }
    if Admissible(nows, interval, starts) {
      forall i | 0 <= i < |nows| ensures Slots(nows, interval)[i] <= starts[i] {
        NotLater(nows, interval, starts, i);
      }
    }
  }

  lemma {:induction false} NotLater(nows: seq<nat>, interval: nat, starts: seq<nat>, i: nat)
    requires Admissible(nows, interval, starts) && i < |nows|
    ensures Slots(nows, interval)[i] <= starts[i]
    decreases i
  {
    SlotsPrefix(nows, interval, i);
    if i > 0 {
      NotLater(nows, interval, starts, i - 1);
    }
  }

  // ------------------------------------------------------------- the rate

  function CountIn(slots: seq<nat>, a: nat, b: nat): nat {
    if slots == [] then 0
    else CountIn(slots[..|slots| - 1], a, b) + if a <= slots[|slots| - 1] <= b then 1 else 0
  }

  ghost predicate Spaced(slots: seq<nat>, interval: nat) {
    forall i | 0 < i < |slots| :: slots[i - 1] + interval <= slots[i]
  }

  /** c slots at or after `a` reach at least to a + (c - 1) * interval. */
  lemma {:induction false} WindowReach(slots: seq<nat>, interval: nat, a: nat, b: nat)
    requires Spaced(slots, interval) && CountIn(slots, a, b) > 0
    ensures a + (CountIn(slots, a, b) - 1) * interval <= b
    ensures a + (CountIn(slots, a, b) - 1) * interval <= slots[|slots| - 1]
    decreases |slots|
  {
    var p := slots[..|slots| - 1];
    var c := CountIn(p, a, b);
    if c > 0 {
      WindowReach(p, interval, a, b);
      assert p[|p| - 1] + interval <= slots[|slots| - 1];
      Shift(c, 0, interval);
    }
  }

  lemma Fits(k: nat, width: nat, interval: nat)
    requires interval > 0 && k * interval <= width
    ensures k <= width / interval
  {
    DivMono(k * interval, width, interval);
    DivUnique(k * interval, interval, k);
  }

  lemma SpacedRate(slots: seq<nat>, interval: nat, a: nat, width: nat)
    requires interval > 0 && Spaced(slots, interval)
    ensures CountIn(slots, a, a + width) <= width / interval + 1
  {
    var c := CountIn(slots, a, a + width);
    if c > 0 {
      WindowReach(slots, interval, a, a + width);
      Fits(c - 1, width, interval);
    }
  }

  /** Any window of length `width` holds at most width / interval + 1 slots, cancelled callers included. */
  lemma RateBound(nows: seq<nat>, interval: nat, a: nat, width: nat)
    requires interval > 0
    ensures CountIn(Slots(nows, interval), a, a + width) <= width / interval + 1
  {
    var slots := Slots(nows, interval);
    SlotsLeast(nows, interval, slots);
    SpacedRate(slots, interval, a, width);
  }
}
