/**
The evidence validator: the accounting of a histogram, the replay of its percentiles and
summary, and the check of a whole load result. It complains of nothing exactly when the
result is sound.
*/
module Evidence {
  import opened Kv
  import opened Counting
  import opened Histogram

  const CONTRACT := "durable-log+durable-application-v1/logged-reads"

  datatype Complaint =
    | OfferedDiffers
    | AttemptedDiffers
    | WindowExceeds
    | UnsupportedContract
    | UnsupportedSchema
    | InvalidRate
    | Accounting
    | MaximumDiffers
    | UnreachableBin
    | SummaryDiffers

  // ---------- One histogram ----------

  ghost predicate Highest(bins: seq<nat>, top: nat) {
    top < |bins| && bins[top] > 0 && forall i | top < i < |bins| :: bins[i] == 0
  }

  /** The accounting checks of a histogram that should hold `expected` samples. */
  ghost predicate PassesValidation(h: Hist, expected: int) {
    && |h.bins| == BINS && Sum(h.bins) == h.count && h.count == expected
    && if h.count == 0 then h.maximum == 0
       else exists top: nat :: MaximumIn(h, top)
  }

  /** The maximum lies in the highest populated bin, which is not one of the first 64. */
  ghost predicate MaximumIn(h: Hist, top: nat) {
    Highest(h.bins, top) && top / 64 != 0 && Lower(top) <= h.maximum <= Upper(top)
  }

  lemma HighestIsUnique(bins: seq<nat>, a: nat, b: nat)
    requires Highest(bins, a) && Highest(bins, b)
    ensures a == b
  {
  }

  /** The highest populated bin is that of the greatest sample. */
  lemma GreatestIsHighest(s: seq<nat>)
    requires Samples(s) && s != []
    ensures Sample(Greatest(s)) && Highest(Tally(s).bins, Index(Greatest(s)))
  {
    GreatestBounds(s);
    var g := Greatest(s);
    IndexInRange(g);
    var at :| 0 <= at < |s| && s[at] == g;
    CountSome(s, InBin(Index(g)), at);
    forall i | Index(g) < i < BINS ensures Tally(s).bins[i] == 0 {
      forall k | 0 <= k < |s| ensures !InBin(i)(s[k]) {
        IndexRises(s[k], g);
      }
      CountNone(s, InBin(i));
    }
  }

  /** Every histogram of recorded samples passes the validator's accounting. */
  lemma TallyPassesValidation(s: seq<nat>)
    requires Samples(s)
    ensures PassesValidation(Tally(s), |s|)
  {
    TallySumsToCount(s);
    if s != [] {
      GreatestIsHighest(s);
      IndexInRange(Greatest(s));
      BinHoldsSample(Greatest(s));
      assert MaximumIn(Tally(s), Index(Greatest(s)));
    }
  }

  lemma {:induction false} ZerosSumToZero(bins: seq<nat>)
    requires forall i | 0 <= i < |bins| :: bins[i] == 0
    ensures Sum(bins) == 0
  {
    if bins != [] {
      ZerosSumToZero(bins[..|bins| - 1]);
    }
  }

  /** The highest populated bin. */
  method HighestBin(bins: seq<nat>) returns (top: nat)
    requires Sum(bins) > 0
    ensures Highest(bins, top)
  {
    var found := false;
    top := 0;
    for i := 0 to |bins|
      invariant !found ==> forall j | 0 <= j < i :: bins[j] == 0
      invariant found ==> top < i && bins[top] > 0 && forall j | top < j < i :: bins[j] == 0
    {
      if bins[i] > 0 {
        found, top := true, i;
      }
    }
    if !found {
      ZerosSumToZero(bins);
    }
  }

  method HistogramErrors(h: Hist, expected: int) returns (complaint: Option<Complaint>)
    ensures complaint.None? <==> PassesValidation(h, expected)
  {
    if |h.bins| != BINS || Sum(h.bins) != h.count || h.count != expected {
      return Some(Accounting);
    }
    if h.count == 0 {
      return if h.maximum == 0 then None else Some(MaximumDiffers);
    }
    var highest := HighestBin(h.bins);
    forall other: nat | Highest(h.bins, other) ensures other == highest {
      HighestIsUnique(h.bins, other, highest);
    }
    var exponent, offset := highest / 64, highest % 64;
    if exponent == 0 {
      return Some(UnreachableBin);
    }
    var base, width := Pow2(exponent - 1), Width(exponent);
    var lower, upper := base + offset * width, base + (offset + 1) * width - 1;
    assert MaximumIn(h, highest) <==> lower <= h.maximum <= upper;
    return if lower <= h.maximum <= upper then None else Some(MaximumDiffers);
  }

  /** The validator's percentile: a walk over the bins that refuses a rank it never reaches. */
  method ReplayPercentile(h: Hist, rank: nat) returns (p: Option<nat>)
    ensures h.count == 0 ==> p == Some(0)
    ensures h.count > 0 ==> (p.Some? <==> rank <= Sum(h.bins) && 1 <= Sum(h.bins))
    ensures h.count > 0 && p.Some? ==> Reports(h, Max(rank, 1), p.value)
  {
    if h.count == 0 {
      return Some(0);
    }
    p := ReplayWalk(h, Max(rank, 1));
  }

  method ReplayWalk(h: Hist, rank: nat) returns (p: Option<nat>)
    requires rank >= 1
    ensures p.Some? <==> rank <= Sum(h.bins)
    ensures p.Some? ==> Reports(h, rank, p.value)
  {
    var bins := h.bins;
    var observed := 0;
    for i := 0 to |bins|
      invariant observed == Sum(bins[..i])
      invariant forall j | 0 <= j <= i :: Sum(bins[..j]) < rank
    {
      assert bins[..i + 1][..i] == bins[..i];
      observed := observed + bins[i];
      if observed < rank {
        continue;
      }
      var exponent, offset := i / 64, i % 64;
      ReachedAt(bins, rank, i);
      if exponent == 0 {
        return Some(1);
      }
      var base, width := Pow2(exponent - 1), Width(exponent);
      var upper := base + (offset + 1) * width - 1;
      assert upper == Upper(i);
      return Some(if upper < h.maximum then upper else h.maximum);
    }
    assert bins[..|bins|] == bins;
    return None;
  }

  /** The validator's summary of a histogram whose bins add up to its count. */
  method ReplaySummary(h: Hist, rank: Ranks) returns (s: Summary)
    requires Sum(h.bins) == h.count && WithinCount(rank)
    ensures Summarizes(h, rank, s)
  {
    var p50 := ReplayPercentile(h, rank(h.count, 500));
    var p95 := ReplayPercentile(h, rank(h.count, 950));
    var p99 := ReplayPercentile(h, rank(h.count, 990));
    var p999 := ReplayPercentile(h, rank(h.count, 999));
    s := Summary(h.count, p50.value, p95.value, p99.value, p999.value, h.maximum);
  }

  // ---------- A load result ----------

  /** A histogram and the summary written beside it. */
  datatype Measured = Measured(hist: Hist, summary: Summary)

  /** `rate` is absent when the configuration gives no finite number. */
  datatype Result = Result(
    contract: string, schema: int, rate: Option<real>,
    offered: nat, attempted: nat, notIssued: nat, ok: nat, inWindow: nat, unknown: nat, errors: nat, networkAttempts: nat,
    success: Measured, all: Measured, successExecution: Measured, allExecution: Measured,
    lateness: Measured, scheduler: Measured)

  datatype Claim = Claim(measured: Measured, count: int)

  predicate ValidRate(rate: Option<real>) {
    rate.Some? && rate.value >= 0.0
  }

  /** How many dispatches the scheduler's histogram must hold. */
  function SchedulerCount(r: Result): int {
    if !ValidRate(r.rate) then -1 else if r.rate.value > 0.0 then r.offered else 0
  }

  /** The histograms that a schema has, with the counts they must have. */
  function Claims(r: Result): seq<Claim> {
    [Claim(r.success, r.ok), Claim(r.all, r.attempted)] +
    (if r.schema >= 2 then [Claim(r.successExecution, r.ok), Claim(r.allExecution, r.attempted)] else []) +
    (if r.schema >= 3 then [Claim(r.lateness, r.attempted), Claim(r.scheduler, SchedulerCount(r))] else [])
  }

  ghost predicate SoundClaim(c: Claim, schema: int, rank: Ranks) {
    && PassesValidation(c.measured.hist, c.count)
    && (schema >= 3 ==> Summarizes(c.measured.hist, rank, c.measured.summary))
  }

  ghost predicate CountsHold(r: Result) {
    && r.offered == r.attempted + r.notIssued
    && r.attempted == r.ok + r.unknown + r.errors
    && r.inWindow <= r.ok
  }

  /** What the validator asks of a result. */
  ghost predicate Validates(r: Result, rank: Ranks) {
    && CountsHold(r) && r.contract == CONTRACT && 1 <= r.schema <= 3
    && (r.schema >= 3 ==> ValidRate(r.rate))
    && forall i | 0 <= i < |Claims(r)| :: SoundClaim(Claims(r)[i], r.schema, rank)
  }

  method CheckClaim(c: Claim, schema: int, rank: Ranks) returns (complaint: Option<Complaint>)
    requires WithinCount(rank)
    ensures complaint.None? <==> SoundClaim(c, schema, rank)
  {
    var h, summary := c.measured.hist, c.measured.summary;
    complaint := HistogramErrors(h, c.count);
    if schema >= 3 && complaint.None? {
      var replayed := ReplaySummary(h, rank);
      if Summarizes(h, rank, summary) {
        SummaryIsUnique(h, rank, summary, replayed);
      }
      if summary != replayed {
        complaint := Some(SummaryDiffers);
      }
    }
  }

  method CheckClaims(claims: seq<Claim>, schema: int, rank: Ranks) returns (errors: seq<Complaint>)
    requires WithinCount(rank)
    ensures errors == [] <==> forall i | 0 <= i < |claims| :: SoundClaim(claims[i], schema, rank)
  {
    errors := [];
    for k := 0 to |claims|
      invariant errors == [] <==> forall i | 0 <= i < k :: SoundClaim(claims[i], schema, rank)
    {
      var complaint := CheckClaim(claims[k], schema, rank);
      if complaint.Some? {
        errors := errors + [complaint.value];
      }
    }
  }

  method CheckCounts(r: Result) returns (errors: seq<Complaint>)
    ensures errors == [] <==> CountsHold(r)
  {
    errors := [];
    if r.offered != r.attempted + r.notIssued {
      errors := errors + [OfferedDiffers];
    }
    if r.attempted != r.ok + r.unknown + r.errors {
      errors := errors + [AttemptedDiffers];
    }
    if r.inWindow > r.ok {
      errors := errors + [WindowExceeds];
    }
  }

  /** The validator accepts exactly the results whose counts, histograms and summaries hold. */
  method ValidateResult(r: Result, rank: Ranks) returns (errors: seq<Complaint>)
    requires WithinCount(rank)
    ensures errors == [] <==> Validates(r, rank)
  {
    errors := CheckCounts(r);
    if r.contract != CONTRACT {
      errors := errors + [UnsupportedContract];
    }
    if r.schema < 1 || r.schema > 3 {
      return errors + [UnsupportedSchema];
    }
    if r.schema >= 3 && !ValidRate(r.rate) {
      errors := errors + [InvalidRate];
    }
    var more := CheckClaims(Claims(r), r.schema, rank);
    errors := errors + more;
  }
}
