/**
The logarithmic latency histogram of the load generator, and the replay of its percentiles
and accounting by the evidence validator.

`Hist` is a histogram as a value, `Tally` the histogram of a sequence of samples. The class
is the generator's object, with its fixed array of bins.
*/
module Histogram {
  import opened Kv
  import opened Counting

  const BINS := 4096

  // ---------- Powers of two ----------

  function Pow2(k: nat): (p: nat)
    ensures p >= 1
  {
    if k == 0 then 1 else 2 * Pow2(k - 1)
  }

  lemma {:induction false} Pow2Rises(a: nat, b: nat)
    requires a <= b
    ensures Pow2(a) <= Pow2(b)
  {
    if a < b {
      Pow2Rises(a, b - 1);
    }
  }

  lemma Pow2Sixty4(k: nat)
    ensures Pow2(k + 6) == 64 * Pow2(k)
  {
    assert Pow2(k + 6) == 2 * Pow2(k + 5) == 4 * Pow2(k + 4) == 8 * Pow2(k + 3);
    assert Pow2(k + 3) == 2 * Pow2(k + 2) == 4 * Pow2(k + 1);
  }

  lemma Pow2Is63()
    ensures Pow2(63) == 0x8000_0000_0000_0000
  {
    Pow2Sixty4(0);
    Pow2Sixty4(6);
    Pow2Sixty4(12);
    Pow2Sixty4(18);
    Pow2Sixty4(24);
    Pow2Sixty4(30);
    Pow2Sixty4(36);
    Pow2Sixty4(42);
    Pow2Sixty4(48);
    Pow2Sixty4(54);
    assert Pow2(63) == 2 * Pow2(62) == 4 * Pow2(61) == 8 * Pow2(60);
  }

  /** The number of bits needed to write `n`. */
  function BitLength(n: nat): nat {
    if n == 0 then 0 else 1 + BitLength(n / 2)
  }

  lemma {:induction false} BitLengthBounds(n: nat)
    requires n >= 1
    ensures BitLength(n) >= 1 && Pow2(BitLength(n) - 1) <= n < Pow2(BitLength(n))
  {
    if n >= 2 {
      BitLengthBounds(n / 2);
    }
  }

  lemma {:induction false} BitLengthRises(n: nat, m: nat)
    requires n <= m
    ensures BitLength(n) <= BitLength(m)
  {
    if n >= 1 {
      BitLengthRises(n / 2, m / 2);
    }
  }

  lemma {:induction false} BitLengthOfTop(k: nat)
    ensures BitLength(Pow2(k) - 1) == k
  {
    if k > 0 {
      BitLengthOfTop(k - 1);
      assert (Pow2(k) - 1) / 2 == Pow2(k - 1) - 1;
    }
  }

  // ---------- Bins ----------

  /** A sample as it is recorded: at least 1, below 2^63. */
  function Clamp(n: nat): (r: nat)
    ensures r >= 1
  {
    if n == 0 then 1 else if BitLength(n) >= 64 then 0x7FFF_FFFF_FFFF_FFFF else n
  }

  predicate Sample(n: nat) {
    n >= 1 && BitLength(n) <= 63
  }

  function Width(exp: nat): (w: nat)
    requires exp >= 1
    ensures w >= 1
  {
    if Pow2(exp - 1) / 64 == 0 then 1 else Pow2(exp - 1) / 64
  }

  /** The integer quotient, by repeated subtraction. */
  function Quotient(a: nat, w: nat): nat
    requires w >= 1
  {
    if a < w then 0 else 1 + Quotient(a - w, w)
  }

  function Offset(n: nat): nat
    requires Sample(n)
  {
    BitLengthBounds(n);
    Quotient(n - Pow2(BitLength(n) - 1), Width(BitLength(n)))
  }

  function Index(n: nat): nat
    requires Sample(n)
  {
    BitLength(n) * 64 + Offset(n)
  }

  function Lower(i: nat): nat {
    if i / 64 == 0 then 1 else Pow2(i / 64 - 1) + i % 64 * Width(i / 64)
  }

  function Upper(i: nat): nat {
    if i / 64 == 0 then 1 else Pow2(i / 64 - 1) + (i % 64 + 1) * Width(i / 64) - 1
  }

  lemma {:induction false} QuotientBounds(a: nat, w: nat)
    requires w >= 1
    ensures Quotient(a, w) * w <= a < Quotient(a, w) * w + w
    ensures (Quotient(a, w) + 1) * w == Quotient(a, w) * w + w
  {
    if a >= w {
      QuotientBounds(a - w, w);
      var q := Quotient(a - w, w);
      assert (q + 1) * w == q * w + w && (q + 2) * w == (q + 1) * w + w;
    }
  }

  lemma QuotientDivides(a: nat, w: nat)
    requires w >= 1
    ensures Quotient(a, w) == a / w
  {
    QuotientBounds(a, w);
    var q := Quotient(a, w);
    assert a == q * w + (a - q * w);
    DivisionIsUnique(a, w, q, a - q * w);
  }

  lemma QuotientBelow(a: nat, w: nat, k: nat)
    requires w >= 1 && a < k * w
    ensures Quotient(a, w) < k
  {
    QuotientBounds(a, w);
    if k <= Quotient(a, w) {
      MulRises(k, Quotient(a, w), w);
    }
  }

  lemma QuotientRises(a: nat, b: nat, w: nat)
    requires w >= 1 && a <= b
    ensures Quotient(a, w) <= Quotient(b, w)
  {
    QuotientBounds(a, w);
    QuotientBounds(b, w);
    if Quotient(b, w) + 1 <= Quotient(a, w) {
      MulRises(Quotient(b, w) + 1, Quotient(a, w), w);
    }
  }

  /** A bin of the exponent is one unit wide, or a 64th of the power of two. */
  lemma WidthCases(exp: nat)
    requires exp >= 1
    ensures (Width(exp) == 1 && Pow2(exp - 1) <= 64) || 64 * Width(exp) == Pow2(exp - 1)
  {
    if exp >= 7 {
      Pow2Sixty4(exp - 7);
      SixtyFourth(Pow2(exp - 1), Pow2(exp - 7));
    } else {
      Pow2Rises(exp - 1, 6);
      Pow2IsSixtyFour();
    }
  }

  lemma SixtyFourth(n: nat, p: nat)
    requires n == 64 * p
    ensures n / 64 == p
  {
  }

  lemma Pow2IsSixtyFour()
    ensures Pow2(6) == 64
  {
    Pow2Sixty4(0);
  }

  lemma OffsetBelow64(n: nat)
    requires Sample(n)
    ensures Offset(n) < 64
  {
    BitLengthBounds(n);
    var exp := BitLength(n);
    var base, w := Pow2(exp - 1), Width(exp);
    WidthCases(exp);
    assert Pow2(exp) == 2 * base;
    assert n - base < 64 * w;
    QuotientBelow(n - base, w, 64);
  }

  /** Every sample has a bin, of nonzero exponent, within the array. */
  lemma IndexInRange(n: nat)
    requires Sample(n)
    ensures 64 <= Index(n) < BINS
    ensures Index(n) / 64 == BitLength(n) && Index(n) % 64 == Offset(n)
  {
    OffsetBelow64(n);
    BitLengthBounds(n);
  }

  /** The bin holds the sample, and its upper end exceeds it by less than a 64th. */
  lemma BinHoldsSample(n: nat)
    requires Sample(n)
    ensures Lower(Index(n)) <= n <= Upper(Index(n))
    ensures 64 * (Upper(Index(n)) - n) < n
  {
    IndexInRange(n);
    BitLengthBounds(n);
    var exp := BitLength(n);
    var base, w, q := Pow2(exp - 1), Width(exp), Offset(n);
    QuotientBounds(n - base, w);
    WidthCases(exp);
    BinEnds(Index(n), exp, q);
    BinArithmetic(n, base, w, q * w);
  }

  lemma BinEnds(i: nat, exp: nat, q: nat)
    requires i / 64 == exp >= 1 && i % 64 == q
    ensures Lower(i) == Pow2(exp - 1) + q * Width(exp) && Upper(i) == Pow2(exp - 1) + (q + 1) * Width(exp) - 1
  {
  }

  lemma BinArithmetic(n: nat, base: nat, w: nat, step: nat)
    requires 1 <= base <= n && step <= n - base < step + w && ((w == 1 && base <= 64) || 64 * w == base)
    ensures base + step <= n <= base + step + w - 1 && 64 * (base + step + w - 1 - n) < n
  {
  }

  lemma IndexRises(n: nat, m: nat)
    requires Sample(n) && Sample(m) && n <= m
    ensures Index(n) <= Index(m)
  {
    OffsetBelow64(n);
    BitLengthRises(n, m);
    if BitLength(n) == BitLength(m) {
      BitLengthBounds(n);
      QuotientRises(n - Pow2(BitLength(n) - 1), m - Pow2(BitLength(n) - 1), Width(BitLength(n)));
    }
  }

  lemma ClampIsSample(n: nat)
    ensures Sample(Clamp(n))
  {
    TopExponent();
  }

  /** A sample is recorded as it is, except zero and what does not fit into 63 bits. */
  lemma ClampMeans(n: nat)
    ensures Clamp(n) == if n < 1 then 1 else if n < 0x8000_0000_0000_0000 then n else 0x7FFF_FFFF_FFFF_FFFF
  {
    Pow2Is63();
    TopExponent();
    if n >= 1 {
      BitLengthBounds(n);
    }
    if n >= 0x8000_0000_0000_0000 {
      if BitLength(n) <= 63 {
        Pow2Rises(BitLength(n), 63);
      }
    } else {
      BitLengthRises(n, 0x7FFF_FFFF_FFFF_FFFF);
    }
  }

  /** The exponent that replaces an overlong one is that of the greatest sample. */
  lemma TopExponent()
    ensures BitLength(0x7FFF_FFFF_FFFF_FFFF) == 63
  {
    Pow2Is63();
    BitLengthOfTop(63);
  }

  /** The offset that the generator computes is never above the cap. */
  lemma ComputedOffset(n: nat, base: nat, width: nat)
    requires Sample(n) && BitLength(n) >= 1 && base == Pow2(BitLength(n) - 1) && width == Width(BitLength(n))
    ensures base <= n && (n - base) / width == Offset(n) < 64
  {
    BitLengthBounds(n);
    OffsetBelow64(n);
    QuotientDivides(n - base, width);
  }

  // ---------- Histograms as values ----------

  datatype Hist = Hist(bins: seq<nat>, count: nat, maximum: nat)

  function Max(a: nat, b: nat): nat {
    if a < b then b else a
  }

  ghost predicate Samples(s: seq<nat>) {
    forall i | 0 <= i < |s| :: Sample(s[i])
  }

  ghost function Greatest(s: seq<nat>): nat {
    if s == [] then 0 else Max(Greatest(s[..|s| - 1]), s[|s| - 1])
  }

  ghost function InBin(i: nat): nat -> bool {
    (x: nat) => Sample(x) && Index(x) == i
  }

  ghost function UpToBin(i: int): nat -> bool {
    (x: nat) => Sample(x) && Index(x) <= i
  }

  /** The histogram of a sequence of recorded samples. */
  ghost function Tally(s: seq<nat>): Hist {
    Hist(seq(BINS, i requires 0 <= i < BINS => Count(s, InBin(i))), |s|, Greatest(s))
  }

  function AddTo(h: Hist, n: nat): Hist
    requires |h.bins| == BINS && Sample(n)
  {
    IndexInRange(n);
    Hist(h.bins[Index(n) := h.bins[Index(n)] + 1], h.count + 1, Max(h.maximum, n))
  }

  /** One more sample, clamped. */
  function Added(h: Hist, n: nat): Hist
    requires |h.bins| == BINS
  {
    ClampIsSample(n);
    AddTo(h, Clamp(n))
  }

  function MergeOf(a: Hist, b: Hist): Hist
    requires |a.bins| == |b.bins| == BINS
  {
    Hist(seq(BINS, i requires 0 <= i < BINS => a.bins[i] + b.bins[i]), a.count + b.count, Max(a.maximum, b.maximum))
  }

  lemma AddTallies(s: seq<nat>, n: nat)
    requires Sample(n)
    ensures AddTo(Tally(s), n) == Tally(s + [n])
  {
    IndexInRange(n);
    assert (s + [n])[..|s|] == s;
    forall i | 0 <= i < BINS ensures AddTo(Tally(s), n).bins[i] == Tally(s + [n]).bins[i] {
      CountOneMore(s, n, InBin(i));
    }
  }

  lemma {:induction false} GreatestSplits(a: seq<nat>, b: seq<nat>)
    ensures Greatest(a + b) == Max(Greatest(a), Greatest(b))
  {
    if b == [] {
      assert a + b == a;
    } else {
      assert (a + b)[..|a + b| - 1] == a + b[..|b| - 1];
      GreatestSplits(a, b[..|b| - 1]);
    }
  }

  /** Merging two histograms is the histogram of all their samples. */
  lemma MergeTallies(a: seq<nat>, b: seq<nat>)
    ensures MergeOf(Tally(a), Tally(b)) == Tally(a + b)
  {
    GreatestSplits(a, b);
    forall i | 0 <= i < BINS ensures MergeOf(Tally(a), Tally(b)).bins[i] == Tally(a + b).bins[i] {
      CountSplits(a, b, InBin(i));
    }
  }

  // ---------- Percentiles ----------

  function Sum(bins: seq<nat>): nat {
    if bins == [] then 0 else Sum(bins[..|bins| - 1]) + bins[|bins| - 1]
  }

  /** The first bin at which the running count reaches the rank. */
  ghost predicate RankBin(bins: seq<nat>, rank: nat, i: nat) {
    && i < |bins| && rank <= Sum(bins[..i + 1])
    && (forall j | 0 <= j <= i :: Sum(bins[..j]) < rank)
  }

  /** What a percentile at a rank reports: the upper end of the bin, at most the maximum. */
  function Report(h: Hist, i: nat): nat {
    if i / 64 == 0 then 1 else if Upper(i) > h.maximum then h.maximum else Upper(i)
  }

  /** `v` is the rank-th smallest sample. */
  ghost predicate IsRank(s: seq<nat>, rank: nat, v: nat) {
    v in s && Count(s, x => x < v) < rank <= Count(s, x => x <= v)
  }

  /** `p` is at least `v`, at most the greatest, and above `v` by less than a 64th of it. */
  ghost predicate Near(v: nat, p: nat, greatest: nat) {
    v <= p <= greatest && 64 * (p - v) < v
  }

  lemma {:induction false} TallySums(s: seq<nat>, i: nat)
    requires Samples(s) && i <= BINS
    ensures Sum(Tally(s).bins[..i]) == Count(s, UpToBin(i - 1))
  {
    var bins := Tally(s).bins;
    if i == 0 {
      CountNone(s, UpToBin(-1));
    } else {
      TallySums(s, i - 1);
      assert bins[..i][..i - 1] == bins[..i - 1];
      CountOneMoreBin(s, i - 1);
    }
  }

  lemma {:induction false} CountOneMoreBin(s: seq<nat>, i: nat)
    ensures Count(s, UpToBin(i)) == Count(s, UpToBin(i - 1)) + Count(s, InBin(i))
  {
    if s != [] {
      CountOneMoreBin(s[..|s| - 1], i);
    }
  }

  lemma {:induction false} GreatestBounds(s: seq<nat>)
    ensures forall i | 0 <= i < |s| :: s[i] <= Greatest(s)
    ensures s != [] ==> Greatest(s) in s
  {
    if s != [] {
      GreatestBounds(s[..|s| - 1]);
      assert s == s[..|s| - 1] + [s[|s| - 1]];
    }
  }

  lemma CountUpToSample(s: seq<nat>, v: nat)
    requires Samples(s) && Sample(v)
    ensures Count(s, x => x <= v) <= Count(s, UpToBin(Index(v)))
  {
    forall i | 0 <= i < |s| && s[i] <= v ensures UpToBin(Index(v))(s[i]) {
      IndexRises(s[i], v);
    }
    CountGrows(s, x => x <= v, UpToBin(Index(v)));
  }

  lemma CountBeforeSample(s: seq<nat>, v: nat, j: nat)
    requires Samples(s) && Sample(v) && j <= Index(v)
    ensures Count(s, UpToBin(j - 1)) <= Count(s, x => x < v)
  {
    forall i | 0 <= i < |s| && UpToBin(j - 1)(s[i]) ensures s[i] < v {
      if v <= s[i] {
        IndexRises(v, s[i]);
      }
    }
    CountGrows(s, UpToBin(j - 1), x => x < v);
  }

  /** The running count reaches the rank exactly in the bin of the rank-th smallest sample. */
  lemma RankBinIsSampleBin(s: seq<nat>, rank: nat, v: nat)
    requires Samples(s) && IsRank(s, rank, v)
    ensures Sample(v) && RankBin(Tally(s).bins, rank, Index(v))
  {
    IndexInRange(v);
    var bins := Tally(s).bins;
    TallySums(s, Index(v) + 1);
    CountUpToSample(s, v);
    forall j | 0 <= j <= Index(v) ensures Sum(bins[..j]) < rank {
      TallySums(s, j);
      CountBeforeSample(s, v, j);
    }
  }

  lemma RankBinIsUnique(bins: seq<nat>, rank: nat, i: nat, j: nat)
    requires RankBin(bins, rank, i) && RankBin(bins, rank, j)
    ensures i == j
  {
  }

  /**
  Accuracy. The reported percentile is at least the true rank-th smallest sample, at most the
  greatest one, and exceeds the true one by less than a 64th of it.
  */
  lemma PercentileIsAccurate(s: seq<nat>, rank: nat, v: nat, i: nat)
    requires Samples(s) && IsRank(s, rank, v) && RankBin(Tally(s).bins, rank, i)
    ensures Near(v, Report(Tally(s), i), Greatest(s))
  {
    RankBinIsSampleBin(s, rank, v);
    RankBinIsUnique(Tally(s).bins, rank, i, Index(v));
    IndexInRange(v);
    BinHoldsSample(v);
    GreatestBounds(s);
  }

  /** Every rank from 1 to the number of samples has a sample. */
  lemma RankExists(s: seq<nat>, rank: nat) returns (v: nat)
    requires 1 <= rank <= |s|
    ensures IsRank(s, rank, v)
  {
    GreatestBounds(s);
    CountAll(s, x => x <= Greatest(s));
    v := RankAtMost(s, rank, Greatest(s));
  }

  lemma {:induction false} RankAtMost(s: seq<nat>, rank: nat, top: nat) returns (v: nat)
    requires 1 <= rank <= Count(s, x => x <= top)
    ensures IsRank(s, rank, v)
    decreases top
  {
    CountNext(s, top);
    if Count(s, x => x < top) < rank {
      v := top;
      if top !in s {
        CountGrows(s, x => x <= top, x => x < top);
      }
    } else {
      if top == 0 {
        CountNone(s, x => x < top);
      } else {
        CountGrows(s, x => x < top, x => x <= top - 1);
        v := RankAtMost(s, rank, top - 1);
      }
    }
  }

  lemma CountNext(s: seq<nat>, top: nat)
    ensures Count(s, x => x < top) <= Count(s, x => x <= top)
  {
    CountGrows(s, x => x < top, x => x <= top);
  }

  lemma TallySumsToCount(s: seq<nat>)
    requires Samples(s)
    ensures Sum(Tally(s).bins) == |s|
  {
    var bins := Tally(s).bins;
    TallySums(s, BINS);
    assert bins[..BINS] == bins;
    forall i | 0 <= i < |s| ensures UpToBin(BINS - 1)(s[i]) {
      IndexInRange(s[i]);
    }
    CountAll(s, UpToBin(BINS - 1));
  }

  /** The percentile at a rank, as a relation: the walk over the bins stops at one bin. */
  ghost predicate Reports(h: Hist, rank: nat, p: nat) {
    exists i :: RankBin(h.bins, rank, i) && p == Report(h, i)
  }

  /** Two walks at one rank report one percentile: generator and validator agree. */
  lemma PercentilesCoincide(h: Hist, rank: nat, p: nat, q: nat)
    requires Reports(h, rank, p) && Reports(h, rank, q)
    ensures p == q
  {
    var i: nat :| RankBin(h.bins, rank, i) && p == Report(h, i);
    var j: nat :| RankBin(h.bins, rank, j) && q == Report(h, j);
    RankBinIsUnique(h.bins, rank, i, j);
  }

  /** What is reported for the tally of samples is accurate at every rank. */
  lemma ReportIsAccurate(s: seq<nat>, rank: nat, p: nat)
    requires Samples(s) && Reports(Tally(s), rank, p)
    ensures forall v: nat | IsRank(s, rank, v) :: Near(v, p, Greatest(s))
  {
    var i: nat :| RankBin(Tally(s).bins, rank, i) && p == Report(Tally(s), i);
    forall v: nat | IsRank(s, rank, v) ensures Near(v, p, Greatest(s)) {
      PercentileIsAccurate(s, rank, v, i);
    }
  }

  lemma {:induction false} SumWhole(bins: seq<nat>, i: nat)
    requires i <= |bins|
    ensures Sum(bins[..i]) <= Sum(bins)
    decreases |bins| - i
  {
    if i < |bins| {
      SumWhole(bins, i + 1);
      assert bins[..i + 1][..i] == bins[..i];
    } else {
      assert bins[..i] == bins;
    }
  }

  // ---------- Summaries ----------

  /** The ranks of the percentiles: a rank per number of samples and per mille. */
  type Ranks = (nat, nat) -> nat

  ghost predicate WithinCount(rank: Ranks) {
    forall count: nat, mille: nat :: rank(count, mille) <= count
  }

  datatype Summary = Summary(count: nat, p50: nat, p95: nat, p99: nat, p999: nat, maximum: nat)

  ghost predicate PercentileIs(h: Hist, rank: nat, p: nat) {
    if h.count == 0 then p == 0 else Reports(h, Max(rank, 1), p)
  }

  ghost predicate Summarizes(h: Hist, rank: Ranks, s: Summary) {
    && s.count == h.count && s.maximum == h.maximum
    && PercentileIs(h, rank(h.count, 500), s.p50) && PercentileIs(h, rank(h.count, 950), s.p95)
    && PercentileIs(h, rank(h.count, 990), s.p99) && PercentileIs(h, rank(h.count, 999), s.p999)
  }

  lemma PercentileIsUnique(h: Hist, rank: nat, p: nat, q: nat)
    requires PercentileIs(h, rank, p) && PercentileIs(h, rank, q)
    ensures p == q
  {
    if h.count != 0 {
      PercentilesCoincide(h, Max(rank, 1), p, q);
    }
  }

  /** Generator and validator summarize a histogram alike. */
  lemma SummaryIsUnique(h: Hist, rank: Ranks, s: Summary, t: Summary)
    requires Summarizes(h, rank, s) && Summarizes(h, rank, t)
    ensures s == t
  {
    PercentileIsUnique(h, rank(h.count, 500), s.p50, t.p50);
    PercentileIsUnique(h, rank(h.count, 950), s.p95, t.p95);
    PercentileIsUnique(h, rank(h.count, 990), s.p99, t.p99);
    PercentileIsUnique(h, rank(h.count, 999), s.p999, t.p999);
  }

  // ---------- The generator's object ----------

  class Recorder {
    const bins: array<nat>
    var count: nat
    var maximum: nat
    ghost var samples: seq<nat>

    function Value(): Hist
      reads this, bins
    {
      Hist(bins[..], count, maximum)
    }

    ghost predicate Valid()
      reads this, bins
    {
      bins.Length == BINS && Samples(samples) && Value() == Tally(samples)
    }

    constructor ()
      ensures Valid() && samples == [] && fresh(bins)
    {
      bins := new nat[BINS](_ => 0);
      count, maximum, samples := 0, 0, [];
    }

    /** A recorder that holds the tally of some samples. */
    constructor Of(h: Hist, ghost s: seq<nat>)
      requires Samples(s) && h == Tally(s)
      ensures Valid() && Value() == h && samples == s && fresh(bins)
    {
      bins := new nat[BINS](i requires 0 <= i < BINS => h.bins[i]);
      count, maximum, samples := h.count, h.maximum, s;
      new;
      assert bins[..] == h.bins;
    }

    /** Records one sample, clamped into the range of the bins. */
    method Add(n: nat)
      requires Valid()
      modifies this, bins
      ensures Valid() && samples == old(samples) + [Clamp(n)]
      ensures Value() == Added(old(Value()), n)
    {
      ClampIsSample(n);
      TopExponent();
      var v := if n == 0 then 1 else n;
      var exp := BitLength(v);
      if exp >= 64 {
        exp := 63;
        v := 0x7FFF_FFFF_FFFF_FFFF;
      }
      var base, width := Pow2(exp - 1), Width(exp);
      ComputedOffset(v, base, width);
      var offset := (v - base) / width;
      if offset > 63 {
        offset := 63;
      }
      Increment(v, exp * 64 + offset);
    }

    method Increment(v: nat, k: nat)
      requires Valid() && Sample(v) && k == Index(v)
      modifies this, bins
      ensures Valid() && samples == old(samples) + [v] && Value() == AddTo(old(Value()), v)
    {
      AddTallies(samples, v);
      IndexInRange(v);
      Bump(v, k);
      samples := samples + [v];
    }

    /** The update of the array and the two counters. */
    method Bump(v: nat, k: nat)
      requires k < bins.Length
      modifies this`count, this`maximum, bins
      ensures Value() ==
              Hist(old(bins[..])[k := old(bins[k]) + 1], old(count) + 1, Max(old(maximum), v))
    {
      bins[k] := bins[k] + 1;
      assert bins[..] == old(bins[..])[k := old(bins[k]) + 1];
      count := count + 1;
      if v > maximum {
        maximum := v;
      }
    }

    /** Adds another histogram's bins: the result is that of both sequences of samples. */
    method Merge(other: Recorder)
      requires Valid() && other.Valid() && other != this && other.bins != bins
      modifies this, bins
      ensures Valid() && samples == old(samples) + other.samples
      ensures Value() == MergeOf(old(Value()), other.Value())
    {
      MergeTallies(samples, other.samples);
      ghost var before := bins[..];
      for i := 0 to BINS
        modifies bins
        invariant forall j | 0 <= j < i :: bins[j] == before[j] + other.bins[j]
        invariant forall j | i <= j < BINS :: bins[j] == before[j]
      {
        bins[i] := bins[i] + other.bins[i];
      }
      assert bins[..] == MergeOf(old(Value()), other.Value()).bins;
      count := count + other.count;
      if other.maximum > maximum {
        maximum := other.maximum;
      }
      samples := samples + other.samples;
    }

    /** The generator's percentile at a rank, accurate to a 64th of the true sample. */
    method Percentile(rank: nat) returns (p: nat)
      requires Valid()
      ensures count == 0 ==> p == 0
      ensures rank > count ==> p == maximum
      ensures rank <= count ==> PercentileIs(Value(), rank, p)
      ensures 1 <= rank <= count ==>
        (exists v: nat :: IsRank(samples, rank, v)) &&
        forall v: nat | IsRank(samples, rank, v) :: Near(v, p, maximum)
    {
      TallySumsToCount(samples);
      GreatestBounds(samples);
      if count == 0 {
        return 0;
      }
      ghost var h := Value();
      p := Walk(if rank < 1 then 1 else rank);
      if 1 <= rank <= count {
        ghost var v := RankExists(samples, rank);
        ReportIsAccurate(samples, rank, p);
      }
    }

    /** The generator's summary, as it is written beside the bins. */
    method Summarize(rank: Ranks) returns (s: Summary)
      requires Valid() && WithinCount(rank)
      ensures Summarizes(Value(), rank, s)
    {
      var p50 := Percentile(rank(count, 500));
      var p95 := Percentile(rank(count, 950));
      var p99 := Percentile(rank(count, 990));
      var p999 := Percentile(rank(count, 999));
      s := Summary(count, p50, p95, p99, p999, maximum);
    }

    method Walk(rank: nat) returns (p: nat)
      requires bins.Length == BINS && rank >= 1
      ensures rank > Sum(bins[..]) ==> p == maximum
      ensures rank <= Sum(bins[..]) ==> Reports(Value(), rank, p)
    {
      var reached := 0;
      for i := 0 to BINS
        invariant reached == Sum(bins[..i])
        invariant forall j | 0 <= j <= i :: Sum(bins[..j]) < rank
      {
        assert bins[..i + 1][..i] == bins[..i];
        reached := reached + bins[i];
        if reached >= rank {
          ReachedAt(bins[..], rank, i);
          var exp, offset := i / 64, i % 64;
          if exp == 0 {
            return 1;
          }
          var upper := Pow2(exp - 1) + (offset + 1) * Width(exp) - 1;
          if upper > maximum {
            upper := maximum;
          }
          return upper;
        }
      }
      assert bins[..BINS] == bins[..];
      return maximum;
    }
  }

  lemma ReachedAt(bins: seq<nat>, rank: nat, i: nat)
    requires i < |bins| && rank <= Sum(bins[..i + 1])
    requires forall j | 0 <= j <= i :: Sum(bins[..j]) < rank
    ensures RankBin(bins, rank, i) && rank <= Sum(bins)
  {
    SumWhole(bins, i + 1);
  }
}
