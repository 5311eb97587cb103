/** The UI's per-source line budget: 120 lines a window, the overflow counted and reported once. */
module RateLimiter {
  import opened Basics

  const LINES_PER_SECOND: nat := 120
  const SECOND: nat := 1_000_000_000

  datatype Bucket = Bucket(window: nat, count: nat, suppressed: nat)

  /** Whether the line is shown, and how many suppressed lines its note reports (0: no note). */
  datatype Decision = Decision(ok: bool, noted: nat)

  /** The clock readings of one call: for a source's first bucket, for the age of its window (always
      taken, and the time at which the line counts), and for a new window. */
  datatype Clock = Clock(first: nat, now: nat, again: nat)

  function BucketOf(b: Option<Bucket>, t: Clock): Bucket {
    match b
    case None => Bucket(t.first, 0, 0)
    case Some(b) => b
  }

  predicate Expired(b: Option<Bucket>, t: Clock) { t.now - BucketOf(b, t).window >= SECOND }

  /** The bucket a call counts in, and what it reports for the window it closes. */
  function Current(b: Option<Bucket>, t: Clock): (Bucket, nat) {
    if Expired(b, t) then (Bucket(t.again, 0, 0), BucketOf(b, t).suppressed) else (BucketOf(b, t), 0)
  }

  function Charged(b: Option<Bucket>, t: Clock): Bucket {
    var c := Current(b, t).0;
    Bucket(c.window, c.count + 1, c.suppressed + if c.count + 1 > LINES_PER_SECOND then 1 else 0)
  }

  function Decide(b: Option<Bucket>, t: Clock): Decision {
    Decision(Charged(b, t).count <= LINES_PER_SECOND, Current(b, t).1)
  }

  function Lookup(rate: map<string, Bucket>, src: string): Option<Bucket> {
    if src in rate then Some(rate[src]) else None
  }

  class Limiter {
    var rate: map<string, Bucket>

    constructor ()
      ensures rate == map[]
    {
      rate := map[];
    }

    method Allow(src: string, t: Clock) returns (ok: bool, noted: nat)
      modifies this
      ensures rate == old(rate)[src := Charged(Lookup(old(rate), src), t)]
      ensures Decision(ok, noted) == Decide(Lookup(old(rate), src), t)
    {
      if src !in rate {
        rate := rate[src := Bucket(t.first, 0, 0)];
      }
      var b := rate[src];
      noted := 0;
      if t.now - b.window >= SECOND {
        if b.suppressed > 0 {
          noted := b.suppressed;
        }
        b := Bucket(t.again, 0, 0);
      }
      b := b.(count := b.count + 1);
      ok := true;
      if b.count > LINES_PER_SECOND {
        b := b.(suppressed := b.suppressed + 1);
        ok := false;
      }
      rate := rate[src := b];
    }
  }

  // ------------------------------------------------------------- many sources

  datatype Call = Call(src: string, t: Clock)

  function Buckets(calls: seq<Call>): map<string, Bucket> {
    if calls == [] then map[]
    else
      var rate, c := Buckets(calls[..|calls| - 1]), calls[|calls| - 1];
      rate[c.src := Charged(Lookup(rate, c.src), c.t)]
  }

  /** The decision on the last call. */
  function LastDecision(calls: seq<Call>): Decision
    requires calls != []
  {
    var c := calls[|calls| - 1];
    Decide(Lookup(Buckets(calls[..|calls| - 1]), c.src), c.t)
  }

  function TimesOf(calls: seq<Call>, src: string): seq<Clock> {
    if calls == [] then []
    else
      var rest, c := TimesOf(calls[..|calls| - 1], src), calls[|calls| - 1];
      if c.src == src then rest + [c.t] else rest
  }

  /** One source on its own. */
  function After(ts: seq<Clock>): (b: Option<Bucket>)
    ensures b.None? <==> ts == []
  {
    if ts == [] then None else Some(Charged(After(ts[..|ts| - 1]), ts[|ts| - 1]))
  }

  function Verdict(ts: seq<Clock>): Decision
    requires ts != []
  {
    Decide(After(ts[..|ts| - 1]), ts[|ts| - 1])
  }

  /** Other sources never change a source's bucket or any decision on its lines. */
  lemma {:induction false} SourcesIsolated(calls: seq<Call>, src: string)
    ensures Lookup(Buckets(calls), src) == After(TimesOf(calls, src))
    ensures calls != [] && calls[|calls| - 1].src == src ==>
              TimesOf(calls, src) != [] && LastDecision(calls) == Verdict(TimesOf(calls, src))
    decreases |calls|
  {
    if calls != [] {
      SourcesIsolated(calls[..|calls| - 1], src);
    }
  }

  // ------------------------------------------------------------- accounting

  function Allowed(ts: seq<Clock>): nat {
    if ts == [] then 0 else Allowed(ts[..|ts| - 1]) + if Verdict(ts).ok then 1 else 0
  }

  function Reported(ts: seq<Clock>): nat {
    if ts == [] then 0 else Reported(ts[..|ts| - 1]) + Verdict(ts).noted
  }

  /** No line is lost from the books: each was shown, reported in a note, or is waiting to be. */
  lemma {:induction false} EveryLineAccounted(ts: seq<Clock>)
    ensures |ts| == Allowed(ts) + Reported(ts) + if ts == [] then 0 else After(ts).value.suppressed
    decreases |ts|
  {
    if ts != [] {
      EveryLineAccounted(ts[..|ts| - 1]);
    }
  }

  // ------------------------------------------------------------- the rate

  /** Lines shown by calls in the half-open interval [a, b). */
  function AllowedIn(ts: seq<Clock>, a: nat, b: nat): nat {
    if ts == [] then 0
    else AllowedIn(ts[..|ts| - 1], a, b) + if Verdict(ts).ok && a <= ts[|ts| - 1].now < b then 1 else 0
  }

  function Spent(b: Bucket): nat { if b.count < LINES_PER_SECOND then b.count else LINES_PER_SECOND }

  /** The clock never goes back (Go's monotonic reading), within a call or from call to call. */
  ghost predicate Monotone(ts: seq<Clock>) {
    && (forall i | 0 <= i < |ts| :: ts[i].first <= ts[i].now <= ts[i].again)
    && (forall i | 0 < i < |ts| :: ts[i - 1].again <= ts[i].first)
  }

  /** When the call came that opened the current window. */
  function OpenedAt(ts: seq<Clock>): nat
    requires ts != []
  {
    var p, t := ts[..|ts| - 1], ts[|ts| - 1];
    if p == [] then t.first else if Expired(After(p), t) then t.now else OpenedAt(p)
  }

  /** Where the current window stands: opened before it began counting, and every line so far came
      before its second was over. */
  lemma {:induction false} WindowPlace(ts: seq<Clock>)
    requires ts != [] && Monotone(ts)
    ensures OpenedAt(ts) <= After(ts).value.window <= ts[|ts| - 1].again && OpenedAt(ts) <= ts[|ts| - 1].now
    ensures forall i | 0 <= i < |ts| :: ts[i].now < After(ts).value.window + SECOND
    decreases |ts|
  {
    var p := ts[..|ts| - 1];
    if p != [] {
      WindowPlace(p);
    }
  }

  /** A window counts from the reading taken when it was opened: the first of the source's first call, and
      later the last of the call that found the window before it over. */
  lemma WindowFrom(ts: seq<Clock>)
    requires ts != []
    ensures var p, t := ts[..|ts| - 1], ts[|ts| - 1];
            var before := if p == [] then t.first else After(p).value.window;
            After(ts).value.window == if t.now - before >= 1_000_000_000 then t.again else before
  {
  }

  lemma {:induction false} NoneBefore(ts: seq<Clock>, a: nat, b: nat)
    requires forall i | 0 <= i < |ts| :: ts[i].now < a
    ensures AllowedIn(ts, a, b) == 0
    decreases |ts|
  {
    if ts != [] {
      NoneBefore(ts[..|ts| - 1], a, b);
    }
  }

  /** Calls in the half-open interval [a, b). */
  function CallsIn(ts: seq<Clock>, a: nat, b: nat): nat {
    if ts == [] then 0 else CallsIn(ts[..|ts| - 1], a, b) + if a <= ts[|ts| - 1].now < b then 1 else 0
  }

  lemma {:induction false} NoCallsBefore(ts: seq<Clock>, a: nat, b: nat)
    requires forall i | 0 <= i < |ts| :: ts[i].now < a
    ensures CallsIn(ts, a, b) == 0
    decreases |ts|
  {
    if ts != [] {
      NoCallsBefore(ts[..|ts| - 1], a, b);
    }
  }

  function Min(a: nat, b: nat): nat { if a < b then a else b }

  /** A window, from the call that opens it until its second is over: the bucket counts its lines, and it
      shows the first 120 of them and suppresses the rest. */
  lemma {:induction false} OneBudgetAWindow(ts: seq<Clock>)
    requires ts != [] && Monotone(ts)
    ensures var b := After(ts).value;
            var calls := CallsIn(ts, OpenedAt(ts), b.window + 1_000_000_000);
            && b.count == calls
            && AllowedIn(ts, OpenedAt(ts), b.window + 1_000_000_000) == Min(calls, 120)
            && b.suppressed == calls - Min(calls, 120)
            && forall i | 0 <= i < |ts| :: ts[i].now < b.window + 1_000_000_000
    decreases |ts|
  {
    var p, t := ts[..|ts| - 1], ts[|ts| - 1];
    WindowPlace(ts);
    if p == [] {
      assert AllowedIn(p, t.first, After(ts).value.window + SECOND) == 0;
      assert CallsIn(p, t.first, After(ts).value.window + SECOND) == 0;
    } else {
      WindowPlace(p);
      if Expired(After(p), t) {
        NoneBefore(p, t.now, t.again + SECOND);
        NoCallsBefore(p, t.now, t.again + SECOND);
      } else {
        OneBudgetAWindow(p);
      }
    }
  }

  /** A note comes with the first line after a window's second, and reports exactly the lines of that
      window beyond its first 120; no other line carries one. */
  lemma NoteReports(ts: seq<Clock>)
    requires |ts| > 1 && Monotone(ts)
    ensures var p, t := ts[..|ts| - 1], ts[|ts| - 1];
            var w := After(p).value.window;
            var calls := CallsIn(p, OpenedAt(p), w + 1_000_000_000);
            Verdict(ts).noted == if t.now >= w + 1_000_000_000 then calls - Min(calls, 120) else 0
  {
    OneBudgetAWindow(ts[..|ts| - 1]);
  }

  /** The bound by when the current window was opened, relative to the interval. */
  lemma {:induction false} IntervalInv(ts: seq<Clock>, a: nat)
    requires ts != [] && Monotone(ts)
    ensures var b, n, o := After(ts).value, AllowedIn(ts, a, a + SECOND), OpenedAt(ts);
            n <= if o < a then Spent(b) else if o < a + SECOND then LINES_PER_SECOND + Spent(b) else 2 * LINES_PER_SECOND
    decreases |ts|
  {
    var p, t := ts[..|ts| - 1], ts[|ts| - 1];
    if p == [] {
      assert AllowedIn(p, a, a + SECOND) == 0;
    } else {
      IntervalInv(p, a);
      WindowPlace(p);
      if Expired(After(p), t) && t.now < a {
        NoneBefore(p, a, a + SECOND);
      }
    }
  }

  /** At most 240 lines are shown in any one-second interval, wherever it starts. */
  lemma AtMostTwoBudgets(ts: seq<Clock>, a: nat)
    requires Monotone(ts)
    ensures AllowedIn(ts, a, a + 1_000_000_000) <= 240
  {
    if ts != [] {
      IntervalInv(ts, a);
    }
  }
}
