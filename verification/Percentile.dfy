/** The two percentile readings (load summary and UI) in exact arithmetic, and the UI's sample window. */
module Percentile {

  // ------------------------------------------------------------- sorting a copy

  function Insert(t: seq<int>, x: int): (r: seq<int>)
    ensures |r| == |t| + 1
  {
    if t == [] || t[|t| - 1] <= x then t + [x]
    else Insert(t[..|t| - 1], x) + [t[|t| - 1]]
  }

  function Sorted(s: seq<int>): (r: seq<int>)
    ensures |r| == |s|
  {
    if s == [] then [] else Insert(Sorted(s[..|s| - 1]), s[|s| - 1])
  }

  ghost predicate Ordered(t: seq<int>) {
    forall i, j | 0 <= i < j < |t| :: t[i] <= t[j]
  }

  lemma {:induction false} InsertContents(t: seq<int>, x: int)
    ensures multiset(Insert(t, x)) == multiset(t) + multiset{x}
    ensures forall y | y in Insert(t, x) :: y in t || y == x
    decreases |t|
  {
    if t != [] && t[|t| - 1] > x {
      InsertContents(t[..|t| - 1], x);
      assert t == t[..|t| - 1] + [t[|t| - 1]];
    }
  }

  lemma {:induction false} InsertOrders(t: seq<int>, x: int)
    requires Ordered(t)
    ensures Ordered(Insert(t, x))
    decreases |t|
  {
    if t != [] && t[|t| - 1] > x {
      var p, last := t[..|t| - 1], t[|t| - 1];
      InsertOrders(p, x);
      InsertContents(p, x);
      var r := Insert(p, x);
      forall i | 0 <= i < |r| ensures r[i] <= last {
        assert r[i] in r;
      }
    }
  }

  lemma {:induction false} SortedSorts(s: seq<int>)
    ensures Ordered(Sorted(s)) && multiset(Sorted(s)) == multiset(s)
    decreases |s|
  {
    if s != [] {
      SortedSorts(s[..|s| - 1]);
      InsertOrders(Sorted(s[..|s| - 1]), s[|s| - 1]);
      InsertContents(Sorted(s[..|s| - 1]), s[|s| - 1]);
      assert s == s[..|s| - 1] + [s[|s| - 1]];
    }
  }

  // ------------------------------------------------------------- the two readings

  /** Go's float-to-int conversion. */
  function Trunc(x: real): int {
    if x >= 0.0 then x.Floor else -(-x).Floor
  }

  /** The position `p` percent of the way along `n` steps. */
  function Along(n: nat, p: real): real { p / 100.0 * n as real }

  /** `percentile` of the load summary, on a sorted slice of n samples. */
  function BlastRank(n: nat, p: real): int
    requires n > 0
  {
    var idx := Trunc(Along(n, p));
    if idx >= n then n - 1 else idx
  }

  /** `percentileMs` of the UI. */
  function UIRank(n: nat, p: real): (r: nat)
    requires n > 0
    ensures r < n
  {
    var idx := Trunc(Along(n - 1, p));
    if idx < 0 then 0 else if idx >= n then n - 1 else idx
  }

  lemma Ranks(n: nat, p: real)
    requires n > 0 && 0.0 <= p <= 100.0
    ensures 0 <= BlastRank(n, p) < n
    ensures UIRank(n, p) as real <= Along(n - 1, p) < UIRank(n, p) as real + 1.0
    ensures BlastRank(n, p) as real <= Along(n, p)
    ensures p < 100.0 ==> Along(n, p) < BlastRank(n, p) as real + 1.0
    ensures p == 100.0 ==> UIRank(n, p) == BlastRank(n, p) == n - 1
  {
    AlongBounds(n - 1, p);
    AlongBounds(n, p);
  }

  lemma AlongBounds(n: nat, p: real)
    requires 0.0 <= p <= 100.0
    ensures 0.0 <= Along(n, p) <= n as real
    ensures p == 100.0 ==> Along(n, p) == n as real
    ensures p < 100.0 && n > 0 ==> Along(n, p) < n as real
  {
    Scale(p / 100.0, n as real);
  }

  lemma Scale(f: real, x: real)
    requires 0.0 <= f <= 1.0 && 0.0 <= x
    ensures 0.0 <= f * x <= x
    ensures f == 1.0 ==> f * x == x
    ensures f < 1.0 && x > 0.0 ==> f * x < x
  {
    assert (1.0 - f) * x == x - f * x;
  }

  function Blast(samples: seq<int>, p: real): int
    requires 0.0 <= p <= 100.0
  {
    if samples == [] then 0 else Ranks(|samples|, p); Sorted(samples)[BlastRank(|samples|, p)]
  }

  function UI(samples: seq<int>, p: real): int {
    if samples == [] then 0 else Sorted(samples)[UIRank(|samples|, p)]
  }

  // ------------------------------------------------------------- what a reading means

  /** How many samples are below `v`, and how many are at most `v`. */
  function Below(s: seq<int>, v: int): nat {
    if s == [] then 0 else Below(s[..|s| - 1], v) + if s[|s| - 1] < v then 1 else 0
  }

  function AtMost(s: seq<int>, v: int): nat {
    if s == [] then 0 else AtMost(s[..|s| - 1], v) + if s[|s| - 1] <= v then 1 else 0
  }

  lemma {:induction false} InsertCounts(t: seq<int>, x: int, v: int)
    ensures Below(Insert(t, x), v) == Below(t, v) + if x < v then 1 else 0
    ensures AtMost(Insert(t, x), v) == AtMost(t, v) + if x <= v then 1 else 0
    decreases |t|
  {
    var r := Insert(t, x);
    if t == [] || t[|t| - 1] <= x {
      assert r[..|r| - 1] == t;
    } else {
      InsertCounts(t[..|t| - 1], x, v);
      assert r[..|r| - 1] == Insert(t[..|t| - 1], x);
    }
  }

  lemma {:induction false} SortedCounts(s: seq<int>, v: int)
    ensures Below(Sorted(s), v) == Below(s, v) && AtMost(Sorted(s), v) == AtMost(s, v)
    decreases |s|
  {
    if s != [] {
      SortedCounts(s[..|s| - 1], v);
      InsertCounts(Sorted(s[..|s| - 1]), s[|s| - 1], v);
    }
  }

  /** Cutting an ordered sequence at a rank bounds both counts. */
  lemma {:induction false} RankCounts(t: seq<int>, k: nat, v: int)
    requires Ordered(t)
    ensures (forall j | 0 <= j < |t| && k <= j :: v <= t[j]) ==> Below(t, v) <= k
    ensures (forall j | 0 <= j < |t| && j < k :: t[j] <= v) && k <= |t| ==> AtMost(t, v) >= k
    decreases |t|
  {
    if t != [] {
      var p := t[..|t| - 1];
      RankCounts(p, k, v);
      if k == |t| {
        RankCounts(p, k - 1, v);
      }
      BelowBound(t, v);
    }
  }

  lemma {:induction false} BelowBound(t: seq<int>, v: int)
    ensures Below(t, v) <= |t|
    decreases |t|
  {
    if t != [] {
      BelowBound(t[..|t| - 1], v);
    }
  }

  /** `v` is the sample at position x: no more than x samples lie below it, more than x are at most it. */
  ghost predicate IsQuantile(s: seq<int>, x: real, v: int) {
    v in s && Below(s, v) as real <= x < AtMost(s, v) as real
  }

  lemma RankMember(s: seq<int>, k: nat)
    requires k < |s|
    ensures Sorted(s)[k] in s
  {
    SortedSorts(s);
    assert Sorted(s)[k] in multiset(Sorted(s));
  }

  lemma RankBounds(s: seq<int>, k: nat)
    requires k < |s|
    ensures Below(s, Sorted(s)[k]) <= k < AtMost(s, Sorted(s)[k])
  {
    SortedSorts(s);
    SortedCounts(s, Sorted(s)[k]);
    OrderedRank(Sorted(s), k);
  }

  lemma OrderedRank(t: seq<int>, k: nat)
    requires Ordered(t) && k < |t|
    ensures Below(t, t[k]) <= k < AtMost(t, t[k])
  {
    RankCounts(t, k, t[k]);
    RankCounts(t, k + 1, t[k]);
  }

  lemma AtRank(s: seq<int>, k: nat, x: real)
    requires k < |s| && k as real <= x < k as real + 1.0
    ensures IsQuantile(s, x, Sorted(s)[k])
  {
    RankMember(s, k);
    RankBounds(s, k);
  }

  /** The UI reads the p-quantile over n - 1 steps; the load summary over n steps, and the maximum at
      p = 100. Both are samples. */
  lemma ReadingsAreQuantiles(s: seq<int>, p: real)
    requires s != [] && 0.0 <= p <= 100.0
    ensures IsQuantile(s, Along(|s| - 1, p), UI(s, p))
    ensures p < 100.0 ==> IsQuantile(s, Along(|s|, p), Blast(s, p))
    ensures p == 100.0 ==> Blast(s, p) == UI(s, p)
    ensures Blast(s, p) in s
  {
    Ranks(|s|, p);
    AtRank(s, UIRank(|s|, p), Along(|s| - 1, p));
    if p < 100.0 {
      AtRank(s, BlastRank(|s|, p), Along(|s|, p));
    }
  }

  /** Outside that range the UI reads the least and the greatest sample; without samples both read zero. */
  lemma ReadingsAtTheEnds(s: seq<int>, p: real)
    ensures s != [] && p <= 0.0 ==> UIRank(|s|, p) == 0
    ensures s != [] && p >= 100.0 ==> UIRank(|s|, p) == |s| - 1 && BlastRank(|s|, p) == |s| - 1
    ensures s == [] ==> UI(s, p) == 0 && (0.0 <= p <= 100.0 ==> Blast(s, p) == 0)
  {
    if s != [] && p <= 0.0 {
      Below0(|s| - 1, p);
    } else if s != [] && p >= 100.0 {
      Beyond100(|s| - 1, p);
      Beyond100(|s|, p);
    }
  }

  lemma Below0(n: nat, p: real)
    requires p <= 0.0
    ensures Along(n, p) <= 0.0 && Trunc(Along(n, p)) <= 0
  {
    assert (-(p / 100.0)) * n as real >= 0.0;
  }

  lemma Beyond100(n: nat, p: real)
    requires p >= 100.0
    ensures Along(n, p) >= n as real && Trunc(Along(n, p)) >= n
  {
    assert (p / 100.0 - 1.0) * n as real >= 0.0;
  }

  /** A quantile is unique, so the readings do not depend on how the copy was sorted. */
  lemma QuantileUnique(s: seq<int>, x: real, v: int, w: int)
    requires IsQuantile(s, x, v) && IsQuantile(s, x, w)
    ensures v == w
  {
    if v < w {
      CountsCross(s, v, w);
    } else if w < v {
      CountsCross(s, w, v);
    }
  }

  lemma {:induction false} CountsCross(s: seq<int>, v: int, w: int)
    requires v < w
    ensures AtMost(s, v) <= Below(s, w)
    decreases |s|
  {
    if s != [] {
      CountsCross(s[..|s| - 1], v, w);
    }
  }

  lemma AlongMono(n: nat, p: real, q: real)
    requires 0.0 <= p <= q
    ensures Along(n, p) <= Along(n, q)
  {
    assert (q / 100.0 - p / 100.0) * n as real >= 0.0;
  }

  lemma UIRankMono(n: nat, p: real, q: real)
    requires n > 0 && 0.0 <= p <= q <= 100.0
    ensures UIRank(n, p) <= UIRank(n, q)
  {
    Ranks(n, p);
    Ranks(n, q);
    AlongMono(n - 1, p, q);
  }

  lemma BlastRankMono(n: nat, p: real, q: real)
    requires n > 0 && 0.0 <= p <= q <= 100.0
    ensures 0 <= BlastRank(n, p) <= BlastRank(n, q) < n
  {
    Ranks(n, p);
    Ranks(n, q);
    AlongMono(n, p, q);
  }

  lemma RanksOneApart(n: nat, p: real)
    requires n > 0 && 0.0 <= p <= 100.0
    ensures UIRank(n, p) <= BlastRank(n, p) <= UIRank(n, p) + 1
  {
    Ranks(n, p);
    var f := p / 100.0;
    assert Along(n, p) == Along(n - 1, p) + f by {
      assert f * n as real == f * (n - 1) as real + f;
    }
    assert 0.0 <= f <= 1.0;
  }

  /** Both readings are monotone in p; on the same samples the UI reads the same rank or one below. */
  lemma ReadingsCompare(s: seq<int>, p: real, q: real)
    requires s != [] && 0.0 <= p <= q <= 100.0
    ensures UI(s, p) <= UI(s, q) && Blast(s, p) <= Blast(s, q)
    ensures UIRank(|s|, p) <= BlastRank(|s|, p) <= UIRank(|s|, p) + 1
    ensures UI(s, p) <= Blast(s, p)
  {
    SortedSorts(s);
    UIRankMono(|s|, p, q);
    BlastRankMono(|s|, p, q);
    RanksOneApart(|s|, p);
  }

  // ------------------------------------------------------------- the sample window

  method AppendSample(samples: seq<int>, v: int, keep: nat) returns (r: seq<int>)
    ensures r == Appended(samples, v, keep)
  {
    r := samples + [v];
    if |r| > keep {
      r := r[|r| - keep..];
    }
  }

  function Appended(samples: seq<int>, v: int, keep: nat): seq<int> {
    if |samples| + 1 > keep then (samples + [v])[|samples| + 1 - keep..] else samples + [v]
  }

  function Window(history: seq<int>, keep: nat): seq<int> {
    if history == [] then []
    else Appended(Window(history[..|history| - 1], keep), history[|history| - 1], keep)
  }

  /** Appending a history one by one keeps exactly its last `keep` elements. */
  lemma {:induction false} WindowIsLast(history: seq<int>, keep: nat)
    ensures Window(history, keep) == if |history| <= keep then history else history[|history| - keep..]
    decreases |history|
  {
    if history != [] {
      var p := history[..|history| - 1];
      WindowIsLast(p, keep);
      assert history == p + [history[|history| - 1]];
    }
  }
}
