/** The latency sample ring of the load summary. `add` indexes with the already incremented `seen`,
    so once the buffer is full the first overwrite lands on slot 1, not slot 0. */
module LatencyHist {
  import opened Division

  /** The buffer after one more sample; `seen` counts the samples before it. */
  function Added(samples: seq<int>, seen: nat, cap: nat, d: int): seq<int>
    requires 0 < cap && |samples| <= cap
  {
    if |samples| < cap then samples + [d] else samples[(seen + 1) % cap := d]
  }

  class Hist {
    const buf: array<int>
    var len: nat
    var seen: nat

    ghost predicate Valid()
      reads this
    {
      0 < buf.Length && len <= buf.Length
    }

    function Samples(): seq<int>
      requires Valid()
      reads this, buf
    {
      buf[..len]
    }

    /** `newLatencyHist`: a capacity below one becomes one. */
    constructor (max: int)
      ensures Valid() && fresh(buf) && buf.Length == (if max < 1 then 1 else max)
      ensures Samples() == [] && seen == 0
    {
      buf := new int[if max < 1 then 1 else max];
      len, seen := 0, 0;
    }

    method Add(d: int)
      requires Valid()
      modifies this`len, this`seen, buf
      ensures Valid() && seen == old(seen) + 1
      ensures Samples() == Added(old(Samples()), old(seen), buf.Length, d)
    {
      seen := seen + 1;
      if len < buf.Length {
        buf[len] := d;
        len := len + 1;
        return;
      }
      buf[seen % buf.Length] := d;
    }
  }

  /** The buffer after recording `xs` in order. */
  function Ring(xs: seq<int>, cap: nat): (r: seq<int>)
    requires 0 < cap
    ensures |r| <= cap
  {
    if xs == [] then [] else Added(Ring(xs[..|xs| - 1], cap), |xs| - 1, cap, xs[|xs| - 1])
  }

  /** Which sample slot j holds after n samples, n >= cap. */
  function Held(n: nat, cap: nat, j: nat): int
    requires 0 < cap <= n && j < cap
  {
    var r := n % cap;
    if n < 2 * cap then (if j == 0 || j > n - cap then j else cap + j - 1)
    else if j <= r then n - r + j - 1
    else n - r + j - 1 - cap
  }

  lemma ModStep(n: nat, cap: nat)
    requires cap > 0
    ensures (n + 1) % cap == if n % cap == cap - 1 then 0 else n % cap + 1
    ensures cap <= n < 2 * cap ==> n % cap == n - cap
    ensures n < cap ==> n % cap == n
  {
    ModSucc(n, cap);
    if n < cap {
      DivUnique(n, cap, 0);
    } else if n < 2 * cap {
      DivUnique(n, cap, 1);
    }
  }

  lemma HeldStep(n: nat, cap: nat, j: nat)
    requires 0 < cap <= n && j < cap
    ensures 0 <= Held(n, cap, j) < n
    ensures Held(n + 1, cap, j) == if j == (n + 1) % cap then n else Held(n, cap, j)
  {
    ModStep(n, cap);
    ModStep(n + 1, cap);
  }

  lemma {:induction false} RingSlots(xs: seq<int>, cap: nat)
    requires 0 < cap
    ensures |xs| <= cap ==> Ring(xs, cap) == xs
    ensures |xs| >= cap ==> |Ring(xs, cap)| == cap
                            && forall j | 0 <= j < cap :: 0 <= Held(|xs|, cap, j) < |xs| && Ring(xs, cap)[j] == xs[Held(|xs|, cap, j)]
    decreases |xs|
  {
    if xs != [] {
      var p, n := xs[..|xs| - 1], |xs| - 1;
      RingSlots(p, cap);
      assert xs == p + [xs[n]];
      if n >= cap {
        forall j | 0 <= j < cap ensures 0 <= Held(|xs|, cap, j) < |xs| && Ring(xs, cap)[j] == xs[Held(|xs|, cap, j)] {
          HeldStep(n, cap, j);
        }
      } else if n + 1 == cap {
        ModStep(cap, cap);
      }
    }
  }

  // ------------------------------------------------------------- what the buffer holds

  function Last(xs: seq<int>, k: nat): seq<int>
    requires k <= |xs|
  {
    xs[|xs| - k..]
  }

  /** From two full rounds on: exactly the last `cap` samples, rotated. */
  lemma RingIsLast(xs: seq<int>, cap: nat)
    requires 0 < cap && |xs| >= 2 * cap
    ensures var r, s := Ring(xs, cap), |xs| % cap + 1;
            |r| == cap && r[s..] + r[..s] == Last(xs, cap)
  {
    RingSlots(xs, cap);
    ModStep(|xs|, cap);
    var r, s := Ring(xs, cap), |xs| % cap + 1;
    forall k | 0 <= k < cap ensures (r[s..] + r[..s])[k] == Last(xs, cap)[k] {
      var j := if k < cap - s then s + k else k - (cap - s);
      assert (r[s..] + r[..s])[k] == r[j];
    }
  }

  /** Between one and two rounds: the very first sample, and the last cap - 1. */
  lemma RingKeepsFirst(xs: seq<int>, cap: nat)
    requires 0 < cap < |xs| < 2 * cap
    ensures var r, s := Ring(xs, cap), |xs| - cap + 1;
            |r| == cap && r[0] == xs[0] && r[s..] + r[1..s] == Last(xs, cap - 1)
  {
    RingSlots(xs, cap);
    var r, s := Ring(xs, cap), |xs| - cap + 1;
    forall k | 0 <= k < cap - 1 ensures (r[s..] + r[1..s])[k] == Last(xs, cap - 1)[k] {
      var j := if k < cap - s then s + k else k - (cap - s) + 1;
      assert (r[s..] + r[1..s])[k] == r[j];
    }
  }

  lemma Rotated(r: seq<int>, a: nat, b: nat)
    requires a <= b <= |r|
    ensures multiset(r[b..] + r[a..b]) == multiset(r[a..])
  {
    assert r[a..] == r[a..b] + r[b..];
  }

  lemma HeadAndRest(r: seq<int>)
    requires r != []
    ensures multiset(r) == multiset{r[0]} + multiset(r[1..])
  {
    assert r == [r[0]] + r[1..];
  }

  lemma WindowContents(xs: seq<int>, cap: nat)
    requires 0 < cap < |xs| < 2 * cap
    ensures multiset(Ring(xs, cap)) == multiset{xs[0]} + multiset(Last(xs, cap - 1))
    ensures multiset(Last(xs, cap)) == multiset{xs[|xs| - cap]} + multiset(Last(xs, cap - 1))
  {
    RingKeepsFirst(xs, cap);
    var r := Ring(xs, cap);
    Rotated(r, 1, |xs| - cap + 1);
    HeadAndRest(r);
    HeadAndRest(Last(xs, cap));
    assert Last(xs, cap)[1..] == Last(xs, cap - 1);
  }

  /** The summary's "last N of M samples" is right exactly up to one full round, from two full rounds
      on, and in between only when the sample wrongly kept equals the one wrongly lost. */
  lemma LastNOfMIff(xs: seq<int>, cap: nat)
    requires 0 < cap
    ensures var n := if |xs| < cap then |xs| else cap;
            multiset(Ring(xs, cap)) == multiset(Last(xs, n))
            <==> (cap < |xs| < 2 * cap ==> xs[0] == xs[|xs| - cap])
  {
    if |xs| <= cap {
      RingSlots(xs, cap);
    } else if |xs| >= 2 * cap {
      RingIsLast(xs, cap);
      Rotated(Ring(xs, cap), 0, |xs| % cap + 1);
    } else {
      WindowContents(xs, cap);
      var rest := multiset(Last(xs, cap - 1));
      assert multiset(Ring(xs, cap)) - rest == multiset{xs[0]};
      assert multiset(Last(xs, cap)) - rest == multiset{xs[|xs| - cap]};
      if xs[0] != xs[|xs| - cap] {
        assert multiset{xs[0]}[xs[0]] == 1 && multiset{xs[|xs| - cap]}[xs[0]] == 0;
      }
    }
  }
}
