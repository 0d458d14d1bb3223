/**
What the validator's accounting of a histogram means. Every histogram of recorded samples
passes it; a histogram that passes is one of recorded samples exactly when each populated bin
is one that a sample can have, which the validator does not check below the highest.
*/
module Realizable {
  import opened Counting
  import opened Histogram
  import opened Evidence

  // ---------- Bins that a sample can have ----------

  /** The bin starts below the next power of two. */
  predicate Reachable(i: nat) {
    1 <= i / 64 <= 63 && Lower(i) < Pow2(i / 64)
  }

  lemma BitLengthIs(n: nat, exp: nat)
    requires exp >= 1 && Pow2(exp - 1) <= n < Pow2(exp)
    ensures BitLength(n) == exp
  {
    BitLengthBounds(n);
    if BitLength(n) < exp {
      Pow2Rises(BitLength(n), exp - 1);
    } else if BitLength(n) > exp {
      Pow2Rises(exp, BitLength(n) - 1);
    }
  }

  lemma QuotientIs(a: nat, w: nat, q: nat)
    requires w >= 1 && q * w <= a < q * w + w
    ensures Quotient(a, w) == q
  {
    QuotientDivides(a, w);
    DivisionIsUnique(a, w, q, a - q * w);
  }

  /** A reachable bin ends below the next power of two. */
  lemma UpperFits(i: nat)
    requires Reachable(i)
    ensures Upper(i) == Lower(i) + Width(i / 64) - 1 && Upper(i) < Pow2(i / 64)
  {
    var exp, q := i / 64, i % 64;
    var w := Width(exp);
    BinEnds(i, exp, q);
    assert (q + 1) * w == q * w + w;
    WidthCases(exp);
    if w != 1 {
      MulRises(q + 1, 64, w);
      assert Pow2(exp) == 2 * Pow2(exp - 1);
    }
  }

  /** The samples of a reachable bin are exactly the numbers between its ends. */
  lemma BetweenEnds(n: nat, i: nat)
    requires Reachable(i) && Lower(i) <= n <= Upper(i)
    ensures Sample(n) && Index(n) == i
  {
    var exp, q := i / 64, i % 64;
    UpperFits(i);
    BinEnds(i, exp, q);
    BitLengthIs(n, exp);
    QuotientIs(n - Pow2(exp - 1), Width(exp), q);
  }

  lemma SampleReaches(n: nat)
    requires Sample(n)
    ensures Reachable(Index(n))
  {
    IndexInRange(n);
    BinHoldsSample(n);
    BitLengthBounds(n);
  }

  // ---------- Samples for given bins ----------

  ghost function Copies(x: nat, n: nat): seq<nat> {
    seq(n, _ => x)
  }

  lemma CopiesCount(x: nat, n: nat, p: nat -> bool)
    ensures Count(Copies(x, n), p) == if p(x) then n else 0
  {
    if p(x) {
      CountAll(Copies(x, n), p);
    } else {
      CountNone(Copies(x, n), p);
    }
  }

  /** As many samples as each bin counts, each at the lower end of its bin. */
  ghost function Spread(bins: seq<nat>): seq<nat> {
    if bins == [] then []
    else Spread(bins[..|bins| - 1]) + Copies(Lower(|bins| - 1), bins[|bins| - 1])
  }

  ghost predicate AllReachable(bins: seq<nat>) {
    forall i | 0 <= i < |bins| :: bins[i] > 0 ==> Reachable(i)
  }

  lemma {:induction false} SpreadCounts(bins: seq<nat>, i: nat)
    requires AllReachable(bins)
    ensures Count(Spread(bins), InBin(i)) == if i < |bins| then bins[i] else 0
  {
    if bins != [] {
      var n := |bins| - 1;
      SpreadCounts(bins[..n], i);
      CountSplits(Spread(bins[..n]), Copies(Lower(n), bins[n]), InBin(i));
      CopiesCount(Lower(n), bins[n], InBin(i));
      if bins[n] > 0 {
        UpperFits(n);
        BetweenEnds(Lower(n), n);
      }
    }
  }

  lemma {:induction false} SpreadLength(bins: seq<nat>)
    ensures |Spread(bins)| == Sum(bins)
  {
    if bins != [] {
      SpreadLength(bins[..|bins| - 1]);
    }
  }

  ghost predicate StartsBin(bins: seq<nat>, x: nat, j: nat) {
    j < |bins| && bins[j] > 0 && x == Lower(j)
  }

  lemma {:induction false} SpreadMembers(bins: seq<nat>, k: nat) returns (j: nat)
    requires k < |Spread(bins)|
    ensures StartsBin(bins, Spread(bins)[k], j)
  {
    var n := |bins| - 1;
    if k < |Spread(bins[..n])| {
      j := SpreadMembers(bins[..n], k);
    } else {
      j := n;
    }
  }

  lemma {:induction false} SumUpdate(bins: seq<nat>, i: nat, v: nat)
    requires i < |bins|
    ensures Sum(bins[i := v]) == Sum(bins) - bins[i] + v
  {
    var n := |bins| - 1;
    if i < n {
      SumUpdate(bins[..n], i, v);
      assert bins[i := v][..n] == bins[..n][i := v];
    } else {
      assert bins[i := v][..n] == bins[..n];
    }
  }

  lemma {:induction false} SumHolds(bins: seq<nat>, i: nat)
    requires i < |bins|
    ensures bins[i] <= Sum(bins)
  {
    if i < |bins| - 1 {
      SumHolds(bins[..|bins| - 1], i);
    }
  }

  // ---------- The meaning of validation ----------

  /** Some samples, this many, have the histogram. */
  ghost predicate Realizes(h: Hist, expected: int, s: seq<nat>) {
    Samples(s) && |s| == expected && Tally(s) == h
  }

  lemma {:induction false} GreatestIsLast(s: seq<nat>, m: nat)
    requires forall i | 0 <= i < |s| :: s[i] <= m
    ensures Greatest(s) <= m && Greatest(s + [m]) == m
  {
    assert (s + [m])[..|s|] == s;
    if s != [] {
      GreatestIsLast(s[..|s| - 1], m);
    }
  }

  /** The start of a populated bin up to the highest is no greater than a maximum in the highest. */
  lemma StartBelow(j: nat, top: nat, maximum: nat)
    requires Reachable(j) && Reachable(top) && j <= top && Lower(top) <= maximum <= Upper(top)
    ensures Lower(j) <= maximum && Sample(Lower(j))
  {
    UpperFits(j);
    BetweenEnds(Lower(j), j);
    BetweenEnds(maximum, top);
    if maximum < Lower(j) {
      IndexRises(maximum, Lower(j));
    }
  }

  lemma SpreadBelow(bins: seq<nat>, top: nat, maximum: nat, k: nat)
    requires AllReachable(bins) && Reachable(top) && Lower(top) <= maximum <= Upper(top)
    requires k < |Spread(bins)| && forall i | top < i < |bins| :: bins[i] == 0
    ensures Sample(Spread(bins)[k]) && Spread(bins)[k] <= maximum
  {
    var j := SpreadMembers(bins, k);
    StartBelow(j, top, maximum);
  }

  lemma SpreadSamples(bins: seq<nat>, top: nat, maximum: nat)
    requires AllReachable(bins) && Reachable(top) && Lower(top) <= maximum <= Upper(top)
    requires forall i | top < i < |bins| :: bins[i] == 0
    ensures Samples(Spread(bins) + [maximum]) && Greatest(Spread(bins) + [maximum]) == maximum
  {
    var spread := Spread(bins);
    BetweenEnds(maximum, top);
    forall k | 0 <= k < |spread| ensures Sample(spread[k]) && spread[k] <= maximum {
      SpreadBelow(bins, top, maximum, k);
    }
    GreatestIsLast(spread, maximum);
  }

  /** Samples for the bins, with the maximum standing for one in the highest bin. */
  lemma WithMaximum(h: Hist, top: nat, fewer: seq<nat>)
    requires |h.bins| == BINS && Sum(h.bins) == h.count && AllReachable(h.bins)
    requires MaximumIn(h, top) && fewer == h.bins[top := h.bins[top] - 1]
    ensures Realizes(h, h.count, Spread(fewer) + [h.maximum])
  {
    SpreadSamples(fewer, top, h.maximum);
    SumUpdate(h.bins, top, h.bins[top] - 1);
    SpreadLength(fewer);
    SpreadTally(h.bins, top, h.maximum, fewer);
  }

  lemma SpreadTally(bins: seq<nat>, top: nat, maximum: nat, fewer: seq<nat>)
    requires |bins| == BINS && AllReachable(bins) && top < BINS && bins[top] > 0
    requires Lower(top) <= maximum <= Upper(top) && fewer == bins[top := bins[top] - 1]
    ensures Tally(Spread(fewer) + [maximum]).bins == bins
  {
    var s := Spread(fewer) + [maximum];
    BetweenEnds(maximum, top);
    forall i | 0 <= i < BINS ensures Tally(s).bins[i] == bins[i] {
      SpreadCounts(fewer, i);
      CountOneMore(Spread(fewer), maximum, InBin(i));
    }
  }

  lemma NothingRealizes(h: Hist)
    requires |h.bins| == BINS && Sum(h.bins) == h.count == 0 && h.maximum == 0
    ensures Realizes(h, 0, [])
  {
    forall i | 0 <= i < BINS ensures Tally([]).bins[i] == h.bins[i] {
      SumHolds(h.bins, i);
    }
  }

  lemma RealizedIsReachable(s: seq<nat>)
    requires Samples(s)
    ensures AllReachable(Tally(s).bins)
  {
    forall i | 0 <= i < BINS && Tally(s).bins[i] > 0 ensures Reachable(i) {
      if forall k | 0 <= k < |s| :: !InBin(i)(s[k]) {
        CountNone(s, InBin(i));
      } else {
        var k :| 0 <= k < |s| && InBin(i)(s[k]);
        SampleReaches(s[k]);
      }
    }
  }

  lemma RealizedIsValid(h: Hist, expected: int, s: seq<nat>)
    requires Realizes(h, expected, s)
    ensures PassesValidation(h, expected) && AllReachable(h.bins)
  {
    TallyPassesValidation(s);
    RealizedIsReachable(s);
  }

  lemma ValidIsRealized(h: Hist, expected: int) returns (s: seq<nat>)
    requires PassesValidation(h, expected) && AllReachable(h.bins)
    ensures Realizes(h, expected, s)
  {
    if h.count == 0 {
      s := [];
      NothingRealizes(h);
    } else {
      var top: nat :| MaximumIn(h, top);
      var fewer := h.bins[top := h.bins[top] - 1];
      s := Spread(fewer) + [h.maximum];
      WithMaximum(h, top, fewer);
    }
  }

  /** Validation and reachable bins together say that some samples have the histogram. */
  lemma ValidatedExactly(h: Hist, expected: int)
    ensures (exists s :: Realizes(h, expected, s)) <==> PassesValidation(h, expected) && AllReachable(h.bins)
  {
    if s :| Realizes(h, expected, s) {
      RealizedIsValid(h, expected, s);
    }
    if PassesValidation(h, expected) && AllReachable(h.bins) {
      var s := ValidIsRealized(h, expected);
    }
  }

  const STRAY := Hist(seq(BINS, i => if i == 0 || i == 64 then 1 else 0), 2, 1)

  /** The validator lets a count through in a bin that no sample can have. */
  lemma StrayCountIsAccepted()
    ensures PassesValidation(STRAY, 2) && !exists s :: Realizes(STRAY, 2, s)
  {
    var zeros := seq(BINS, _ => 0);
    ZerosSumToZero(zeros);
    SumUpdate(zeros, 0, 1);
    SumUpdate(zeros[0 := 1], 64, 1);
    assert STRAY.bins == zeros[0 := 1][64 := 1];
    assert Highest(STRAY.bins, 64);
    assert Lower(64) == 1 && Upper(64) == 1;
    assert MaximumIn(STRAY, 64);
    ValidatedExactly(STRAY, 2);
    assert !Reachable(0);
  }
}
