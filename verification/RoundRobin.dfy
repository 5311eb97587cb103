/** Ticket-based round robin: `pickConnectorIndex` and `nextURL` both draw a ticket from a 64-bit
    atomic counter and reduce it modulo the number of choices; `runOpen` does the same with a plain int. */
module RoundRobin {
  import opened Basics
  import opened Division

  /** The index the k-th draw yields when the counter stood at `start` before draw 0. */
  function Choice(start: nat, k: nat, n: nat): (i: nat)
    requires n > 0
    ensures i < n
  {
    (start + k) % WORD % n
  }

  /** How many of draws 0..m-1 choose index `c`. */
  function Hits(start: nat, m: nat, n: nat, c: nat): nat
    requires n > 0
  {
    if m == 0 then 0 else Hits(start, m - 1, n, c) + if Choice(start, m - 1, n) == c then 1 else 0
  }

  /** Every index is chosen floor(m/n) or ceil(m/n) times. */
  ghost predicate Fair(start: nat, m: nat, n: nat)
    requires n > 0
  {
    forall c: nat | c < n :: m / n <= Hits(start, m, n, c) <= (m + n - 1) / n
  }

  // ------------------------------------------------------------- the closed form

  /** Draws still to go, from residue `i`, before index `c` comes up. */
  function Wait(i: nat, n: nat, c: nat): (d: nat)
    requires i < n && c < n
    ensures d < n
  {
    if i <= c then c - i else c - i + n
  }

  /** Hits counted over exact (unwrapped) residues. */
  function Visits(a: nat, m: nat, n: nat, c: nat): nat
    requires n > 0
  {
    if m == 0 then 0 else Visits(a, m - 1, n, c) + if (a + (m - 1)) % n == c then 1 else 0
  }

  /** Splitting off the first draw instead of the last. */
  lemma {:induction false} VisitsFront(a: nat, m: nat, n: nat, c: nat)
    requires n > 0 && m > 0
    ensures Visits(a, m, n, c) == (if a % n == c then 1 else 0) + Visits(a + 1, m - 1, n, c)
    decreases m
  {
    if m > 1 {
      VisitsFront(a, m - 1, n, c);
      assert a + (m - 1) == a + 1 + (m - 2);
    }
  }

  lemma {:induction false} VisitsClosedForm(a: nat, m: nat, n: nat, c: nat)
    requires n > 0 && c < n
    ensures var d := Wait(a % n, n, c); Visits(a, m, n, c) == if m <= d then 0 else 1 + (m - 1 - d) / n
    decreases m
  {
    if m > 0 {
      VisitsFront(a, m, n, c);
      ModSucc(a, n);
      VisitsClosedForm(a + 1, m - 1, n, c);
      if a % n == c && m > n {
        DivAddOne(m - 1 - n, n);
      } else if a % n == c {
        DivUnique(m - 1, n, 0);
      }
    }
  }

  lemma VisitsFair(a: nat, m: nat, n: nat, c: nat)
    requires n > 0 && c < n
    ensures m / n <= Visits(a, m, n, c) <= (m + n - 1) / n
  {
    var d := Wait(a % n, n, c);
    VisitsClosedForm(a, m, n, c);
    if m <= d {
      DivUnique(m, n, 0);
    } else {
      DivAddOne(m - 1 - d, n);
      DivMono(m, m - 1 - d + n, n);
      DivMono(m - 1 - d + n, m + n - 1, n);
    }
  }

  // ------------------------------------------------------------- fairness

  /** Draws that do not cross the 64-bit wrap see exact residues. */
  lemma {:induction false} NoWrapHits(start: nat, m: nat, n: nat, c: nat)
    requires n > 0 && start + m <= WORD
    ensures Hits(start, m, n, c) == Visits(start, m, n, c)
    decreases m
  {
    if m > 0 {
      NoWrapHits(start, m - 1, n, c);
      DivUnique(start + (m - 1), WORD, 0);
    }
  }

  /** Any window of draws that does not wrap is fair, whoever draws each ticket: a draw is one
      atomic add, so every interleaving hands out the same consecutive tickets. */
  lemma FairWithoutWrap(start: nat, m: nat, n: nat)
    requires n > 0 && start + m <= WORD
    ensures Fair(start, m, n)
  {
    forall c: nat | c < n
      ensures m / n <= Hits(start, m, n, c) <= (m + n - 1) / n
    {
      NoWrapHits(start, m, n, c);
      VisitsFair(start, m, n, c);
    }
  }

  /** When n divides 2^64 the wrap is invisible. */
  lemma WrapInvisible(x: nat, n: nat)
    requires n > 0 && WORD % n == 0
    ensures x % WORD % n == x % n
  {
    var q, r, k := x / WORD, x % WORD, WORD / n;
    assert WORD == n * k;
    assert x == q * WORD + r;
    assert r == n * (r / n) + r % n;
    assert x == n * (q * k + r / n) + r % n by {
      assert q * (n * k) == n * (q * k);
    }
    assert n * (q * k + r / n) == (q * k + r / n) * n;
    DivUnique(x, n, q * k + r / n);
  }

  lemma {:induction false} DividingHits(start: nat, m: nat, n: nat, c: nat)
    requires n > 0 && WORD % n == 0
    ensures Hits(start, m, n, c) == Visits(start, m, n, c)
    decreases m
  {
    if m > 0 {
      DividingHits(start, m - 1, n, c);
      WrapInvisible(start + (m - 1), n);
    }
  }

  lemma WrapChoice(k: nat, n: nat)
    requires n > 0 && k + 1 <= n < WORD && WORD % n > 0
    ensures Choice(WORD - 1, k, n) == if k == 0 then WORD % n - 1 else k - 1
  {
    if k == 0 {
      ModSucc(WORD - 1, n);
      DivUnique(WORD - 1, WORD, 0);
    } else {
      DivUnique(WORD - 1 + k, WORD, 1);
      DivUnique(k - 1, n, 0);
    }
  }

  /** The window that starts on the last ticket before the wrap: it repeats an index too early. */
  lemma {:induction false} WrapWindow(m: nat, n: nat, c: nat)
    requires n > 0 && m + 1 <= n < WORD && WORD % n > 0
    ensures Hits(WORD - 1, m + 1, n, c)
         == (if WORD % n - 1 == c then 1 else 0) + if c < m then 1 else 0
    decreases m
  {
    WrapChoice(m, n);
    if m == 0 {
      assert Hits(WORD - 1, 0, n, c) == 0;
    } else {
      WrapWindow(m - 1, n, c);
    }
  }

  /** Across the wrap, every window is fair exactly when n divides 2^64. */
  lemma FairAcrossWrapIff(n: nat)
    requires 0 < n < WORD
    ensures (forall start: nat, m: nat :: Fair(start, m, n)) <==> WORD % n == 0
  {
    if WORD % n == 0 {
      forall start: nat, m: nat ensures Fair(start, m, n) {
        forall c: nat | c < n
          ensures m / n <= Hits(start, m, n, c) <= (m + n - 1) / n
        {
          DividingHits(start, m, n, c);
          VisitsFair(start, m, n, c);
        }
      }
    } else {
      var r := WORD % n;
      WrapWindow(r, n, r - 1);
      DivUnique(r + 1 + n - 1, n, 1) by { assert 1 * n == n; }
      assert !Fair(WORD - 1, r + 1, n);
    }
  }

  // ------------------------------------------------------------- the counter

  /** The counter after one atomic add. */
  function Advanced(counter: nat): nat {
    if counter + 1 == WORD then 0 else counter + 1
  }

  function AdvancedBy(counter: nat, k: nat): nat {
    if k == 0 then counter else Advanced(AdvancedBy(counter, k - 1))
  }

  /** The k-th draw from a counter at `start` sees the index `Choice(start, k, n)`, so the fairness
      results above speak about the counter's actual draws. */
  lemma {:induction false} DrawSeesChoice(start: nat, k: nat, n: nat)
    requires n > 0 && start < WORD
    ensures AdvancedBy(start, k) == (start + k) % WORD
    ensures Choice(AdvancedBy(start, k), 0, n) == Choice(start, k, n)
    decreases k
  {
    if k == 0 {
      DivUnique(start, WORD, 0);
    } else {
      DrawSeesChoice(start, k - 1, n);
      ModSucc(start + (k - 1), WORD);
    }
    DivUnique(AdvancedBy(start, k), WORD, 0);
  }

  /** The fixed request shape of a load run; only its URL mix is modelled. */
  class ReqSpec {
    const url: string
    const urls: seq<string>
    var n: nat

    constructor (url: string, urls: seq<string>)
      ensures this.url == url && this.urls == urls && n == 0
    {
      this.url, this.urls, n := url, urls, 0;
    }

    method NextURL() returns (u: string)
      requires n < WORD
      modifies this`n
      ensures n < WORD
      ensures |urls| >= 2 ==> u == urls[Choice(old(n), 0, |urls|)] && n == Advanced(old(n))
      ensures |urls| < 2 ==> u == (if urls == [] then url else urls[0]) && n == old(n)
    {
      if |urls| > 0 {
        if |urls| == 1 {
          return urls[0];
        }
        var ticket := n;
        n := Advanced(n);
        DivUnique(ticket, WORD, 0);
        return urls[ticket % |urls|];
      }
      return url;
    }
  }

  // ------------------------------------------------------------- the URL mix

  /** What m successive calls of `NextURL` return, the counter standing at `start` before the first. */
  function Mix(urls: seq<string>, start: nat, m: nat): seq<string>
    requires urls != []
  {
    if m == 0 then [] else Mix(urls, start, m - 1) + [urls[Choice(AdvancedBy(start, m - 1), 0, |urls|)]]
  }

  /** Draws of the first k positions of the list, those that hold `u` only. */
  function Draws(urls: seq<string>, u: string, start: nat, m: nat, k: nat): nat
    requires k <= |urls|
  {
    if k == 0 then 0
    else Draws(urls, u, start, m, k - 1) + if urls[k - 1] == u then Hits(start, m, |urls|, k - 1) else 0
  }

  lemma {:induction false} DrawsStep(urls: seq<string>, u: string, start: nat, m: nat, k: nat)
    requires k <= |urls| && m > 0 && urls != []
    ensures var c := Choice(start, m - 1, |urls|);
            Draws(urls, u, start, m, k) == Draws(urls, u, start, m - 1, k) + if c < k && urls[c] == u then 1 else 0
    decreases k
  {
    if k > 0 {
      DrawsStep(urls, u, start, m, k - 1);
    }
  }

  lemma {:induction false} NoDraws(urls: seq<string>, u: string, start: nat, k: nat)
    requires k <= |urls|
    ensures Draws(urls, u, start, 0, k) == 0
    decreases k
  {
    if k > 0 {
      NoDraws(urls, u, start, k - 1);
    }
  }

  lemma {:induction false} MixCounts(urls: seq<string>, u: string, start: nat, m: nat)
    requires urls != [] && start < WORD
    ensures multiset(Mix(urls, start, m))[u] == Draws(urls, u, start, m, |urls|)
    decreases m
  {
    if m == 0 {
      NoDraws(urls, u, start, |urls|);
    } else {
      MixCounts(urls, u, start, m - 1);
      DrawSeesChoice(start, m - 1, |urls|);
      DrawsStep(urls, u, start, m, |urls|);
    }
  }

  lemma {:induction false} DrawsBounds(urls: seq<string>, u: string, start: nat, m: nat, k: nat, lo: nat, hi: nat)
    requires k <= |urls| && urls != [] && forall c: nat | c < |urls| :: lo <= Hits(start, m, |urls|, c) <= hi
    ensures var c := multiset(urls[..k])[u]; c * lo <= Draws(urls, u, start, m, k) <= c * hi
    decreases k
  {
    if k > 0 {
      DrawsBounds(urls, u, start, m, k - 1, lo, hi);
      assert urls[..k] == urls[..k - 1] + [urls[k - 1]];
      var c := multiset(urls[..k - 1])[u];
      OneMore(c, lo);
      OneMore(c, hi);
    }
  }

  lemma OneMore(c: nat, x: nat)
    ensures (c + 1) * x == c * x + x
  {
  }

  lemma MixBounds(urls: seq<string>, u: string, start: nat, m: nat, lo: nat, hi: nat)
    requires urls != [] && start < WORD && forall c: nat | c < |urls| :: lo <= Hits(start, m, |urls|, c) <= hi
    ensures multiset(urls)[u] * lo <= multiset(Mix(urls, start, m))[u] <= multiset(urls)[u] * hi
  {
    MixCounts(urls, u, start, m);
    DrawsBounds(urls, u, start, m, |urls|, lo, hi);
    assert urls[..|urls|] == urls;
  }

  /** Over m calls that do not wrap the counter, every position of the list is drawn floor(m/n) or
      ceil(m/n) times, so a URL listed c times is returned between c * floor(m/n) and c * ceil(m/n). */
  lemma UrlsFair(urls: seq<string>, u: string, start: nat, m: nat)
    requires urls != [] && start < WORD && start + m <= WORD
    ensures Fair(start, m, |urls|)
    ensures var n, c := |urls|, multiset(urls)[u];
            c * (m / n) <= multiset(Mix(urls, start, m))[u] <= c * ((m + n - 1) / n)
  {
    var n := |urls|;
    FairWithoutWrap(start, m, n);
    var lo, hi := m / n, (m + n - 1) / n;
    MixBounds(urls, u, start, m, lo, hi);
  }
}
