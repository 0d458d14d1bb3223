/**
The execution plan of a paired suite: nested loops over delays, timing and diagnostic cases,
repetitions and rates, with the arms rotated by one place at each repetition.
*/
module Plan {
  import opened Kv
  import opened Counting

  datatype Arm = Arm(name: string, engine: string, binarySet: string)

  datatype Suite = Suite(
    arms: seq<Arm>, diagnosticArms: seq<string>, delays: seq<nat>, rates: seq<nat>, diagnosticRates: seq<nat>, runs: nat)

  /** What one case executes: its place in the suite, without its ordinal. */
  datatype Slot = Slot(delay: nat, diagnostic: bool, repetition: nat, rate: nat, position: nat, arm: Arm)

  datatype Case = Case(ordinal: nat, slot: Slot)

  datatype Problem = NoArms | RepeatedArm | BadDiagnosticArms | UnknownArm

  datatype Planned = Refused(problem: Problem) | Cases(cases: seq<Case>)

  // ---------- Rotation ----------

  function OrderedArms(arms: seq<Arm>, repeat: nat): (r: seq<Arm>)
    requires arms != []
    ensures |r| == |arms|
  {
    arms[repeat % |arms|..] + arms[..repeat % |arms|]
  }

  /** The remainder of a division, by repeated subtraction. */
  function Rest(r: nat, n: nat): (m: nat)
    requires n >= 1
    ensures m < n
  {
    if r < n then r else Rest(r - n, n)
  }

  lemma {:induction false} RestIsRemainder(r: nat, n: nat)
    requires n >= 1
    ensures Rest(r, n) == r % n
  {
    if r < n {
      DivisionIsUnique(r, n, 0, r);
    } else {
      RestIsRemainder(r - n, n);
      var q := (r - n) / n;
      assert (q + 1) * n == q * n + n;
      DivisionIsUnique(r, n, q + 1, (r - n) % n);
    }
  }

  /** The remainder of the repetitions that put arm `k` at place `i`. */
  function Start(n: nat, k: nat, i: nat): (m: nat)
    requires k < n && i < n
    ensures m < n
  {
    if k >= i then k - i else k + n - i
  }

  ghost predicate DistinctArms(arms: seq<Arm>) {
    forall i, j | 0 <= i < j < |arms| :: arms[i].name != arms[j].name
  }

  lemma RotatedPlaces(arms: seq<Arm>, m: nat, k: nat, i: nat)
    requires DistinctArms(arms) && m < |arms| && k < |arms| && i < |arms|
    ensures (arms[m..] + arms[..m])[i] == arms[k] <==> m == Start(|arms|, k, i)
  {
    var at := if i < |arms| - m then m + i else m + i - |arms|;
    assert (arms[m..] + arms[..m])[i] == arms[at];
    assert at == k || arms[at].name != arms[k].name;
  }

  lemma RotationPlaces(arms: seq<Arm>, repeat: nat, k: nat, i: nat)
    requires DistinctArms(arms) && k < |arms| && i < |arms|
    ensures OrderedArms(arms, repeat)[i] == arms[k] <==> Rest(repeat, |arms|) == Start(|arms|, k, i)
  {
    RestIsRemainder(repeat, |arms|);
    RotatedPlaces(arms, Rest(repeat, |arms|), k, i);
  }

  // ---------- The plan as a sequence ----------

  function Line(delay: nat, diagnostic: bool, repeat: nat, rate: nat, arms: seq<Arm>): seq<Slot>
    requires arms != []
  {
    seq(|arms|, i requires 0 <= i < |arms| =>
      Slot(delay, diagnostic, repeat + 1, rate, i + 1, OrderedArms(arms, repeat)[i]))
  }

  function OverRates(delay: nat, diagnostic: bool, repeat: nat, rates: seq<nat>, arms: seq<Arm>): seq<Slot>
    requires arms != []
  {
    if rates == [] then []
    else
      OverRates(delay, diagnostic, repeat, rates[..|rates| - 1], arms) +
      Line(delay, diagnostic, repeat, rates[|rates| - 1], arms)
  }

  function OverRepeats(delay: nat, diagnostic: bool, repeats: nat, rates: seq<nat>, arms: seq<Arm>): seq<Slot>
    requires arms != []
  {
    if repeats == 0 then []
    else
      OverRepeats(delay, diagnostic, repeats - 1, rates, arms) + OverRates(delay, diagnostic, repeats - 1, rates, arms)
  }

  function OneDelay(delay: nat, s: Suite, chosen: seq<Arm>): seq<Slot>
    requires s.arms != [] && chosen != []
  {
    OverRepeats(delay, false, s.runs, s.rates, s.arms) + OverRepeats(delay, true, 1, s.diagnosticRates, chosen)
  }

  function OverDelays(delays: seq<nat>, s: Suite, chosen: seq<Arm>): seq<Slot>
    requires s.arms != [] && chosen != []
  {
    if delays == [] then []
    else OverDelays(delays[..|delays| - 1], s, chosen) + OneDelay(delays[|delays| - 1], s, chosen)
  }

  // ---------- Counting ----------

  ghost function Is(v: nat): nat -> bool {
    (x: nat) => x == v
  }

  /** How often a delay or a rate is mentioned. */
  ghost function Times(s: seq<nat>, v: nat): nat {
    Count(s, Is(v))
  }

  /** The timing cases of a delay and a rate that have an arm at a position. */
  ghost function Timing(delay: nat, rate: nat, arm: Arm, position: nat): Slot -> bool {
    (c: Slot) => !c.diagnostic && c.delay == delay && c.rate == rate && c.arm == arm && c.position == position
  }

  lemma LineTally(delay: nat, diagnostic: bool, repeat: nat, rate: nat, arms: seq<Arm>, d: nat, q: nat, k: nat, i: nat)
    requires DistinctArms(arms) && k < |arms| && i < |arms|
    ensures Count(Line(delay, diagnostic, repeat, rate, arms), Timing(d, q, arms[k], i + 1)) ==
            Unit(!diagnostic && delay == d && rate == q && Rest(repeat, |arms|) == Start(|arms|, k, i))
  {
    RotationPlaces(arms, repeat, k, i);
    CountAtOnePlace(Line(delay, diagnostic, repeat, rate, arms), Timing(d, q, arms[k], i + 1), i);
  }

  lemma {:induction false} RatesTally(
      delay: nat, diagnostic: bool, repeat: nat, rates: seq<nat>, arms: seq<Arm>, d: nat, q: nat, k: nat, i: nat)
    requires DistinctArms(arms) && k < |arms| && i < |arms|
    ensures Count(OverRates(delay, diagnostic, repeat, rates, arms), Timing(d, q, arms[k], i + 1)) ==
            if !diagnostic && delay == d && Rest(repeat, |arms|) == Start(|arms|, k, i) then Times(rates, q) else 0
  {
    if rates != [] {
      var rest := rates[..|rates| - 1];
      RatesTally(delay, diagnostic, repeat, rest, arms, d, q, k, i);
      LineTally(delay, diagnostic, repeat, rates[|rates| - 1], arms, d, q, k, i);
      CountSplits(
        OverRates(delay, diagnostic, repeat, rest, arms), Line(delay, diagnostic, repeat, rates[|rates| - 1], arms),
        Timing(d, q, arms[k], i + 1));
    }
  }

  /** How many of the first repetitions have a given remainder. */
  ghost function Hits(repeats: nat, n: nat, m: nat): nat
    requires m < n
  {
    if repeats == 0 then 0 else Hits(repeats - 1, n, m) + Unit(Rest(repeats - 1, n) == m)
  }

  lemma Distributes(a: nat, b: nat, c: nat)
    ensures a * (b + c) == a * b + a * c
  {
  }

  lemma LastRepeat(delay: nat, repeats: nat, rates: seq<nat>, arms: seq<Arm>, p: Slot -> bool)
    requires arms != [] && repeats > 0
    ensures Count(OverRepeats(delay, false, repeats, rates, arms), p) ==
            Count(OverRepeats(delay, false, repeats - 1, rates, arms), p) +
            Count(OverRates(delay, false, repeats - 1, rates, arms), p)
  {
    CountSplits(OverRepeats(delay, false, repeats - 1, rates, arms), OverRates(delay, false, repeats - 1, rates, arms), p);
  }

  lemma ScaledStep(unit: nat, n: nat, more: bool)
    ensures Scaled(unit, n + Unit(more)) == Scaled(unit, n) + if more then unit else 0
  {
  }

  ghost predicate Steps(total: nat -> nat, n: nat, m: nat, unit: nat, r: nat)
    requires n >= 1
  {
    total(r + 1) == total(r) + if Rest(r, n) == m then unit else 0
  }

  /** A total that grows by a unit at each repetition of the remainder is the units times the hits. */
  lemma {:induction false} HitsMultiply(total: nat -> nat, n: nat, m: nat, unit: nat, repeats: nat)
    requires m < n && total(0) == 0 && forall r: nat :: Steps(total, n, m, unit, r)
    ensures total(repeats) == Scaled(unit, Hits(repeats, n, m))
  {
    if repeats > 0 {
      HitsMultiply(total, n, m, unit, repeats - 1);
      assert Steps(total, n, m, unit, repeats - 1);
      ScaledStep(unit, Hits(repeats - 1, n, m), Rest(repeats - 1, n) == m);
    }
  }

  ghost predicate RepeatSteps(
      delay: nat, rates: seq<nat>, arms: seq<Arm>, p: Slot -> bool, m: nat, unit: nat, r: nat)
    requires arms != []
  {
    Count(OverRepeats(delay, false, r + 1, rates, arms), p) ==
    Count(OverRepeats(delay, false, r, rates, arms), p) + if Rest(r, |arms|) == m then unit else 0
  }

  lemma RepeatStep(delay: nat, r: nat, rates: seq<nat>, arms: seq<Arm>, d: nat, q: nat, k: nat, i: nat)
    requires DistinctArms(arms) && k < |arms| && i < |arms|
    ensures RepeatSteps(
              delay, rates, arms, Timing(d, q, arms[k], i + 1), Start(|arms|, k, i), if delay == d then Times(rates, q) else 0, r)
  {
    LastRepeat(delay, r + 1, rates, arms, Timing(d, q, arms[k], i + 1));
    RatesTally(delay, false, r, rates, arms, d, q, k, i);
  }

  lemma RepeatsMultiply(delay: nat, repeats: nat, rates: seq<nat>, arms: seq<Arm>, p: Slot -> bool, m: nat, unit: nat)
    requires m < |arms| && forall r: nat :: RepeatSteps(delay, rates, arms, p, m, unit, r)
    ensures Count(OverRepeats(delay, false, repeats, rates, arms), p) == Scaled(unit, Hits(repeats, |arms|, m))
  {
    var total := (r: nat) => Count(OverRepeats(delay, false, r, rates, arms), p);
    forall r: nat ensures Steps(total, |arms|, m, unit, r) {
      assert RepeatSteps(delay, rates, arms, p, m, unit, r);
    }
    HitsMultiply(total, |arms|, m, unit, repeats);
  }

  lemma RepeatsTally(delay: nat, repeats: nat, rates: seq<nat>, arms: seq<Arm>, d: nat, q: nat, k: nat, i: nat)
    requires DistinctArms(arms) && k < |arms| && i < |arms|
    ensures Count(OverRepeats(delay, false, repeats, rates, arms), Timing(d, q, arms[k], i + 1)) ==
            Scaled(if delay == d then Times(rates, q) else 0, Hits(repeats, |arms|, Start(|arms|, k, i)))
  {
    var m, unit := Start(|arms|, k, i), if delay == d then Times(rates, q) else 0;
    AllRepeatSteps(delay, rates, arms, d, q, k, i, Timing(d, q, arms[k], i + 1), m, unit);
    RepeatsMultiply(delay, repeats, rates, arms, Timing(d, q, arms[k], i + 1), m, unit);
  }

  lemma AllRepeatSteps(
      delay: nat, rates: seq<nat>, arms: seq<Arm>, d: nat, q: nat, k: nat, i: nat, p: Slot -> bool, m: nat, unit: nat)
    requires DistinctArms(arms) && k < |arms| && i < |arms| && p == Timing(d, q, arms[k], i + 1)
    requires m == Start(|arms|, k, i) && unit == if delay == d then Times(rates, q) else 0
    ensures forall r: nat :: RepeatSteps(delay, rates, arms, p, m, unit, r)
  {
    forall r: nat ensures RepeatSteps(delay, rates, arms, p, m, unit, r) {
      RepeatStep(delay, r, rates, arms, d, q, k, i);
    }
  }

  lemma {:induction false} DiagnosisTally(delay: nat, rates: seq<nat>, arms: seq<Arm>, d: nat, q: nat, arm: Arm, i: nat)
    requires arms != []
    ensures Count(OverRates(delay, true, 0, rates, arms), Timing(d, q, arm, i)) == 0
  {
    if rates != [] {
      var rest, line := rates[..|rates| - 1], Line(delay, true, 0, rates[|rates| - 1], arms);
      DiagnosisTally(delay, rest, arms, d, q, arm, i);
      CountAtOnePlace(line, Timing(d, q, arm, i), |line|);
      CountSplits(OverRates(delay, true, 0, rest, arms), line, Timing(d, q, arm, i));
    }
  }

  lemma OneRepeat(delay: nat, diagnostic: bool, rates: seq<nat>, arms: seq<Arm>)
    requires arms != []
    ensures OverRepeats(delay, diagnostic, 1, rates, arms) == OverRates(delay, diagnostic, 0, rates, arms)
  {
    assert OverRepeats(delay, diagnostic, 0, rates, arms) == [];
  }

  lemma DelayTally(delay: nat, s: Suite, chosen: seq<Arm>, d: nat, q: nat, k: nat, i: nat)
    requires DistinctArms(s.arms) && k < |s.arms| && i < |s.arms| && chosen != []
    ensures Count(OneDelay(delay, s, chosen), Timing(d, q, s.arms[k], i + 1)) ==
            if delay == d then Scaled(Times(s.rates, q), Hits(s.runs, |s.arms|, Start(|s.arms|, k, i))) else 0
  {
    RepeatsTally(delay, s.runs, s.rates, s.arms, d, q, k, i);
    ScaledIsProduct(0, Hits(s.runs, |s.arms|, Start(|s.arms|, k, i)));
    DiagnosisTally(delay, s.diagnosticRates, chosen, d, q, s.arms[k], i + 1);
    HalvesTally(delay, s, chosen, Timing(d, q, s.arms[k], i + 1));
  }

  lemma HalvesTally(delay: nat, s: Suite, chosen: seq<Arm>, p: Slot -> bool)
    requires s.arms != [] && chosen != []
    ensures Count(OneDelay(delay, s, chosen), p) ==
            Count(OverRepeats(delay, false, s.runs, s.rates, s.arms), p) +
            Count(OverRates(delay, true, 0, s.diagnosticRates, chosen), p)
  {
    OneRepeat(delay, true, s.diagnosticRates, chosen);
    CountSplits(
      OverRepeats(delay, false, s.runs, s.rates, s.arms), OverRepeats(delay, true, 1, s.diagnosticRates, chosen), p);
  }

  lemma {:induction false} DelaysMultiply(
      delays: seq<nat>, s: Suite, chosen: seq<Arm>, p: Slot -> bool, d: nat, unit: nat)
    requires s.arms != [] && chosen != []
    requires forall delay: nat :: Count(OneDelay(delay, s, chosen), p) == if delay == d then unit else 0
    ensures Count(OverDelays(delays, s, chosen), p) == Scaled(unit, Times(delays, d))
  {
    if delays != [] {
      var rest, delay := delays[..|delays| - 1], delays[|delays| - 1];
      DelaysMultiply(rest, s, chosen, p, d, unit);
      LastDelay(delays, s, chosen, p);
      assert Times(delays, d) == Times(rest, d) + Unit(delay == d);
      ScaledStep(unit, Times(rest, d), delay == d);
      assert Count(OneDelay(delay, s, chosen), p) == if delay == d then unit else 0;
    }
  }

  ghost function Scaled(unit: nat, n: nat): nat {
    if n == 0 then 0 else Scaled(unit, n - 1) + unit
  }

  lemma {:induction false} ScaledIsProduct(unit: nat, n: nat)
    ensures Scaled(unit, n) == unit * n
  {
    if n > 0 {
      ScaledIsProduct(unit, n - 1);
      Distributes(unit, n - 1, 1);
    }
  }

  lemma LastDelay(delays: seq<nat>, s: Suite, chosen: seq<Arm>, p: Slot -> bool)
    requires s.arms != [] && chosen != [] && delays != []
    ensures Count(OverDelays(delays, s, chosen), p) ==
            Count(OverDelays(delays[..|delays| - 1], s, chosen), p) + Count(OneDelay(delays[|delays| - 1], s, chosen), p)
  {
    CountSplits(OverDelays(delays[..|delays| - 1], s, chosen), OneDelay(delays[|delays| - 1], s, chosen), p);
  }

  /** How often an arm has a position, counted exactly for any number of runs. */
  lemma DelaysTally(s: Suite, chosen: seq<Arm>, d: nat, q: nat, k: nat, i: nat)
    requires DistinctArms(s.arms) && k < |s.arms| && i < |s.arms| && chosen != []
    ensures Appearances(s, chosen, d, q, k, i) ==
            Times(s.rates, q) * Hits(s.runs, |s.arms|, Start(|s.arms|, k, i)) * Times(s.delays, d)
  {
    var hits := Hits(s.runs, |s.arms|, Start(|s.arms|, k, i));
    var unit := Scaled(Times(s.rates, q), hits);
    ScaledIsProduct(Times(s.rates, q), hits);
    forall delay: nat
      ensures Count(OneDelay(delay, s, chosen), Timing(d, q, s.arms[k], i + 1)) == if delay == d then unit else 0
    {
      DelayTally(delay, s, chosen, d, q, k, i);
    }
    DelaysMultiply(s.delays, s, chosen, Timing(d, q, s.arms[k], i + 1), d, unit);
    ScaledIsProduct(unit, Times(s.delays, d));
  }

  lemma NextRemainder(r: nat, n: nat)
    requires n >= 1
    ensures r % n + 1 < n ==> (r + 1) / n == r / n && (r + 1) % n == r % n + 1
    ensures r % n + 1 == n ==> (r + 1) / n == r / n + 1 && (r + 1) % n == 0
  {
    var q, m := r / n, r % n;
    assert r == q * n + m;
    if m + 1 < n {
      DivisionIsUnique(r + 1, n, q, m + 1);
    } else {
      assert (q + 1) * n == q * n + n;
      DivisionIsUnique(r + 1, n, q + 1, 0);
    }
  }

  /** Of the first repetitions, each remainder has its whole cycles, and perhaps one more. */
  lemma {:induction false} HitsAre(repeats: nat, n: nat, m: nat)
    requires m < n
    ensures Hits(repeats, n, m) == repeats / n + Unit(m < repeats % n)
  {
    if repeats == 0 {
      DivisionIsUnique(0, n, 0, 0);
    } else {
      HitsAre(repeats - 1, n, m);
      RestIsRemainder(repeats - 1, n);
      NextRemainder(repeats - 1, n);
    }
  }

  // ---------- The balance claim ----------

  ghost function Appearances(s: Suite, chosen: seq<Arm>, d: nat, q: nat, k: nat, i: nat): nat
    requires s.arms != [] && chosen != [] && k < |s.arms|
  {
    Count(OverDelays(s.delays, s, chosen), Timing(d, q, s.arms[k], i + 1))
  }

  /** Every arm is in every position equally often, for each delay and rate. */
  ghost predicate Balanced(s: Suite, chosen: seq<Arm>)
    requires s.arms != [] && chosen != []
  {
    forall d: nat, q: nat, k: nat, i: nat, l: nat, j: nat
      | k < |s.arms| && i < |s.arms| && l < |s.arms| && j < |s.arms| ::
      Appearances(s, chosen, d, q, k, i) == Appearances(s, chosen, d, q, l, j)
  }

  /** With whole cycles, each appears once per cycle for each mention of the delay and the rate. */
  lemma WholeCyclesBalance(s: Suite, chosen: seq<Arm>, d: nat, q: nat, k: nat, i: nat)
    requires DistinctArms(s.arms) && chosen != [] && k < |s.arms| && i < |s.arms|
    requires s.runs % |s.arms| == 0
    ensures Appearances(s, chosen, d, q, k, i) == Times(s.rates, q) * (s.runs / |s.arms|) * Times(s.delays, d)
  {
    DelaysTally(s, chosen, d, q, k, i);
    HitsAre(s.runs, |s.arms|, Start(|s.arms|, k, i));
  }

  lemma TimesOfMember(s: seq<nat>, i: nat)
    requires i < |s|
    ensures Times(s, s[i]) >= 1
  {
    CountSome(s, Is(s[i]), i);
  }

  lemma ProductPositive(a: nat, b: nat)
    requires a >= 1 && b >= 1
    ensures a * b >= 1
  {
  }

  lemma ProductRises(a: nat, b: nat, c: nat)
    requires a >= 1 && b >= 1
    ensures b * (c + 1) * a > b * c * a
  {
    Distributes(b, c, 1);
    Distributes(a, b * c, b);
    ProductPositive(a, b);
  }

  /** The plan is balanced exactly when the runs make whole cycles of the arms. */
  lemma BalancedExactly(s: Suite, chosen: seq<Arm>)
    requires DistinctArms(s.arms) && s.arms != [] && chosen != [] && s.delays != [] && s.rates != []
    ensures Balanced(s, chosen) <==> s.runs % |s.arms| == 0
  {
    var n := |s.arms|;
    if s.runs % n == 0 {
      forall d: nat, q: nat, k: nat, i: nat, l: nat, j: nat | k < n && i < n && l < n && j < n
        ensures Appearances(s, chosen, d, q, k, i) == Appearances(s, chosen, d, q, l, j)
      {
        WholeCyclesBalance(s, chosen, d, q, k, i);
        WholeCyclesBalance(s, chosen, d, q, l, j);
      }
    } else {
      var d, q := s.delays[0], s.rates[0];
      TimesOfMember(s.delays, 0);
      TimesOfMember(s.rates, 0);
      DelaysTally(s, chosen, d, q, 0, 0);
      DelaysTally(s, chosen, d, q, n - 1, 0);
      HitsAre(s.runs, n, 0);
      HitsAre(s.runs, n, n - 1);
      ProductRises(Times(s.delays, d), Times(s.rates, q), s.runs / n);
      assert Appearances(s, chosen, d, q, 0, 0) != Appearances(s, chosen, d, q, n - 1, 0);
    }
  }

  // ---------- Which cases there are ----------

  /** The cases of one mode, delay, repetition, rate and arm. */
  ghost function Cell(diagnostic: bool, d: nat, r: nat, q: nat, a: Arm): Slot -> bool {
    (c: Slot) => c.diagnostic == diagnostic && c.delay == d && c.repetition == r && c.rate == q && c.arm == a
  }

  /** A rotation has each arm at exactly one place. */
  lemma RotationHas(arms: seq<Arm>, repeat: nat, a: Arm) returns (i: nat)
    requires DistinctArms(arms) && arms != []
    ensures var r := OrderedArms(arms, repeat);
            && i <= |arms| && (i < |arms| <==> a in arms)
            && forall j | 0 <= j < |arms| :: r[j] == a <==> j == i
  {
    var n, m := |arms|, repeat % |arms|;
    var r := OrderedArms(arms, repeat);
    assert forall j | 0 <= j < n :: r[j] == arms[if j < n - m then m + j else m + j - n];
    i := n;
    if a in arms {
      var k :| 0 <= k < n && arms[k] == a;
      i := if k >= m then k - m else k + n - m;
    }
  }

  lemma LineCases(
      delay: nat, diagnostic: bool, repeat: nat, rate: nat, arms: seq<Arm>, g: bool, d: nat, r: nat, q: nat, a: Arm)
    requires DistinctArms(arms) && arms != []
    ensures Count(Line(delay, diagnostic, repeat, rate, arms), Cell(g, d, r, q, a)) ==
            Unit(diagnostic == g && delay == d && repeat + 1 == r && rate == q && a in arms)
  {
    var i := RotationHas(arms, repeat, a);
    CountAtOnePlace(Line(delay, diagnostic, repeat, rate, arms), Cell(g, d, r, q, a), i);
  }

  lemma {:induction false} RatesCases(
      delay: nat, diagnostic: bool, repeat: nat, rates: seq<nat>, arms: seq<Arm>, g: bool, d: nat, r: nat, q: nat, a: Arm)
    requires DistinctArms(arms) && arms != []
    ensures Count(OverRates(delay, diagnostic, repeat, rates, arms), Cell(g, d, r, q, a)) ==
            if diagnostic == g && delay == d && repeat + 1 == r && a in arms then Times(rates, q) else 0
  {
    if rates != [] {
      var rest, rate := rates[..|rates| - 1], rates[|rates| - 1];
      RatesCases(delay, diagnostic, repeat, rest, arms, g, d, r, q, a);
      LineCases(delay, diagnostic, repeat, rate, arms, g, d, r, q, a);
      CountSplits(
        OverRates(delay, diagnostic, repeat, rest, arms), Line(delay, diagnostic, repeat, rate, arms),
        Cell(g, d, r, q, a));
    }
  }

  lemma {:induction false} RepeatsCases(
      delay: nat, repeats: nat, rates: seq<nat>, arms: seq<Arm>, g: bool, d: nat, r: nat, q: nat, a: Arm)
    requires DistinctArms(arms) && arms != []
    ensures Count(OverRepeats(delay, false, repeats, rates, arms), Cell(g, d, r, q, a)) ==
            if !g && delay == d && 1 <= r <= repeats && a in arms then Times(rates, q) else 0
  {
    if repeats > 0 {
      RepeatsCases(delay, repeats - 1, rates, arms, g, d, r, q, a);
      RatesCases(delay, false, repeats - 1, rates, arms, g, d, r, q, a);
      LastRepeat(delay, repeats, rates, arms, Cell(g, d, r, q, a));
    }
  }

  /** How often one delay of the suite asks for a case. */
  ghost function Asked(s: Suite, chosen: seq<Arm>, diagnostic: bool, r: nat, q: nat, a: Arm): nat {
    if diagnostic then if r == 1 && a in chosen then Times(s.diagnosticRates, q) else 0
    else if 1 <= r <= s.runs && a in s.arms then Times(s.rates, q) else 0
  }

  lemma DelayCases(delay: nat, s: Suite, chosen: seq<Arm>, g: bool, d: nat, r: nat, q: nat, a: Arm)
    requires DistinctArms(s.arms) && s.arms != [] && DistinctArms(chosen) && chosen != []
    ensures Count(OneDelay(delay, s, chosen), Cell(g, d, r, q, a)) ==
            if delay == d then Asked(s, chosen, g, r, q, a) else 0
  {
    RepeatsCases(delay, s.runs, s.rates, s.arms, g, d, r, q, a);
    RatesCases(delay, true, 0, s.diagnosticRates, chosen, g, d, r, q, a);
    HalvesTally(delay, s, chosen, Cell(g, d, r, q, a));
  }

  lemma ChosenDistinct(s: Suite, chosen: seq<Arm>)
    requires Selects(s, chosen) && DistinctNames(s.diagnosticArms)
    ensures DistinctArms(chosen)
  {
    forall i, j | 0 <= i < j < |chosen| ensures chosen[i].name != chosen[j].name {
      assert s.diagnosticArms[i] != s.diagnosticArms[j];
    }
  }

  /**
  The plan has every case that the suite asks for, and no other: each arm in each repetition at
  each delay and rate, and each diagnostic arm once at each delay and diagnostic rate.
  */
  lemma PlanHasEveryCase(s: Suite, chosen: seq<Arm>, diagnostic: bool, d: nat, r: nat, q: nat, a: Arm)
    requires Acceptable(s) && Selects(s, chosen)
    ensures Count(OverDelays(s.delays, s, chosen), Cell(diagnostic, d, r, q, a)) ==
            Asked(s, chosen, diagnostic, r, q, a) * Times(s.delays, d)
  {
    ChosenDistinct(s, chosen);
    var unit, p := Asked(s, chosen, diagnostic, r, q, a), Cell(diagnostic, d, r, q, a);
    forall delay: nat ensures Count(OneDelay(delay, s, chosen), p) == if delay == d then unit else 0 {
      DelayCases(delay, s, chosen, diagnostic, d, r, q, a);
    }
    DelaysMultiply(s.delays, s, chosen, p, d, unit);
    ScaledIsProduct(unit, Times(s.delays, d));
  }

  ghost predicate NoRepeats(s: seq<nat>) {
    forall i, j | 0 <= i < j < |s| :: s[i] != s[j]
  }

  /** The suite asks for the case. */
  ghost predicate Wanted(s: Suite, chosen: seq<Arm>, diagnostic: bool, r: nat, q: nat, a: Arm) {
    if diagnostic then r == 1 && a in chosen && q in s.diagnosticRates
    else 1 <= r <= s.runs && a in s.arms && q in s.rates
  }

  /** Where the suite lists nothing twice, each case is planned exactly once. */
  lemma EachCaseOnce(s: Suite, chosen: seq<Arm>, diagnostic: bool, d: nat, r: nat, q: nat, a: Arm)
    requires Acceptable(s) && Selects(s, chosen)
    requires NoRepeats(s.delays) && NoRepeats(s.rates) && NoRepeats(s.diagnosticRates)
    ensures Count(OverDelays(s.delays, s, chosen), Cell(diagnostic, d, r, q, a)) ==
            if d in s.delays && Wanted(s, chosen, diagnostic, r, q, a) then 1 else 0
  {
    PlanHasEveryCase(s, chosen, diagnostic, d, r, q, a);
    ListedOnce(s.delays, d);
    AskedOnce(s, chosen, diagnostic, r, q, a);
    UnitTimes(Wanted(s, chosen, diagnostic, r, q, a), d in s.delays);
  }

  lemma UnitTimes(a: bool, b: bool)
    ensures Unit(a) * Unit(b) == Unit(a && b)
  {
  }

  lemma AskedOnce(s: Suite, chosen: seq<Arm>, diagnostic: bool, r: nat, q: nat, a: Arm)
    requires NoRepeats(s.rates) && NoRepeats(s.diagnosticRates)
    ensures Asked(s, chosen, diagnostic, r, q, a) == Unit(Wanted(s, chosen, diagnostic, r, q, a))
  {
    ListedOnce(s.rates, q);
    ListedOnce(s.diagnosticRates, q);
  }

  lemma {:induction false} ListedOnce(s: seq<nat>, v: nat)
    requires NoRepeats(s)
    ensures Times(s, v) == Unit(v in s)
  {
    if s != [] {
      ListedOnce(s[..|s| - 1], v);
      assert s == s[..|s| - 1] + [s[|s| - 1]];
    }
  }

  // ---------- Length ----------

  lemma {:induction false} RatesLength(delay: nat, diagnostic: bool, repeat: nat, rates: seq<nat>, arms: seq<Arm>)
    requires arms != []
    ensures |OverRates(delay, diagnostic, repeat, rates, arms)| == |arms| * |rates|
  {
    if rates != [] {
      RatesLength(delay, diagnostic, repeat, rates[..|rates| - 1], arms);
      Distributes(|arms|, |rates| - 1, 1);
    }
  }

  lemma {:induction false} RepeatsLength(delay: nat, diagnostic: bool, repeats: nat, rates: seq<nat>, arms: seq<Arm>)
    requires arms != []
    ensures |OverRepeats(delay, diagnostic, repeats, rates, arms)| == |arms| * |rates| * repeats
  {
    if repeats > 0 {
      RepeatsLength(delay, diagnostic, repeats - 1, rates, arms);
      RatesLength(delay, diagnostic, repeats - 1, rates, arms);
      Distributes(|arms| * |rates|, repeats - 1, 1);
    }
  }

  /** The number of cases that the results reader expects, computed from the suite alone. */
  function ExpectedCases(s: Suite): nat {
    |s.delays| * |s.arms| * |s.rates| * s.runs + |s.delays| * |s.diagnosticArms| * |s.diagnosticRates|
  }

  lemma Reassociates(a: nat, b: nat, c: nat, e: nat)
    ensures a * (b * c * e) == a * b * c * e
  {
    var x := b * c;
    assert a * (x * e) == (a * x) * e;
    assert a * (b * c) == (a * b) * c;
  }

  lemma {:induction false} DelaysLength(delays: seq<nat>, s: Suite, chosen: seq<Arm>, unit: nat)
    requires s.arms != [] && chosen != []
    requires forall delay: nat :: |OneDelay(delay, s, chosen)| == unit
    ensures |OverDelays(delays, s, chosen)| == Scaled(unit, |delays|)
  {
    if delays != [] {
      DelaysLength(delays[..|delays| - 1], s, chosen, unit);
    }
  }

  lemma DelayLength(delay: nat, s: Suite, chosen: seq<Arm>)
    requires s.arms != [] && chosen != []
    ensures |OneDelay(delay, s, chosen)| == |s.arms| * |s.rates| * s.runs + |chosen| * |s.diagnosticRates|
  {
    RepeatsLength(delay, false, s.runs, s.rates, s.arms);
    OneRepeat(delay, true, s.diagnosticRates, chosen);
    RatesLength(delay, true, 0, s.diagnosticRates, chosen);
  }

  /** The plan has exactly the cases that the results reader expects. */
  lemma PlanLength(s: Suite, chosen: seq<Arm>)
    requires s.arms != [] && chosen != [] && |chosen| == |s.diagnosticArms|
    ensures |OverDelays(s.delays, s, chosen)| == ExpectedCases(s)
  {
    var unit := |s.arms| * |s.rates| * s.runs + |chosen| * |s.diagnosticRates|;
    forall delay: nat ensures |OneDelay(delay, s, chosen)| == unit {
      DelayLength(delay, s, chosen);
    }
    DelaysLength(s.delays, s, chosen, unit);
    ScaledIsProduct(unit, |s.delays|);
    Expands(|s.delays|, |s.arms|, |s.rates|, s.runs, |chosen|, |s.diagnosticRates|);
  }

  lemma Expands(d: nat, a: nat, r: nat, n: nat, c: nat, e: nat)
    ensures (a * r * n + c * e) * d == d * a * r * n + d * c * e
  {
    Distributes(d, a * r * n, c * e);
    Reassociates(d, a, r, n);
    Reassociates(d, c, e, 1);
  }

  // ---------- The planner ----------

  ghost predicate DistinctNames(names: seq<string>) {
    forall i, j | 0 <= i < j < |names| :: names[i] != names[j]
  }

  /** The diagnostic arms, looked up by name. */
  ghost predicate Selects(s: Suite, chosen: seq<Arm>) {
    && |chosen| == |s.diagnosticArms|
    && forall i | 0 <= i < |chosen| :: chosen[i] in s.arms && chosen[i].name == s.diagnosticArms[i]
  }

  ghost predicate Known(s: Suite, name: string) {
    exists i :: 0 <= i < |s.arms| && s.arms[i].name == name
  }

  ghost predicate Acceptable(s: Suite) {
    && s.arms != [] && DistinctArms(s.arms)
    && s.diagnosticArms != [] && DistinctNames(s.diagnosticArms)
    && forall i | 0 <= i < |s.diagnosticArms| :: Known(s, s.diagnosticArms[i])
  }

  ghost predicate Numbers(cases: seq<Case>, slots: seq<Slot>) {
    |cases| == |slots| && forall i | 0 <= i < |cases| :: cases[i] == Case(i + 1, slots[i])
  }

  function Names(arms: seq<Arm>): seq<string> {
    seq(|arms|, i requires 0 <= i < |arms| => arms[i].name)
  }

  lemma NamesTellArms(arms: seq<Arm>)
    ensures DistinctNames(Names(arms)) <==> DistinctArms(arms)
  {
    var names := Names(arms);
    if DistinctNames(names) {
      forall i, j | 0 <= i < j < |arms| ensures arms[i].name != arms[j].name {
        assert names[i] != names[j];
      }
    }
  }

  method AllDistinct(names: seq<string>) returns (distinct: bool)
    ensures distinct <==> DistinctNames(names)
  {
    var seen: set<string> := {};
    for i := 0 to |names|
      invariant seen == set j | 0 <= j < i :: names[j]
      invariant forall j, k | 0 <= j < k < i :: names[j] != names[k]
    {
      if names[i] in seen {
        return false;
      }
      seen := seen + {names[i]};
    }
    return true;
  }

  method Lookup(s: Suite, name: string) returns (arm: Option<Arm>)
    ensures arm.None? <==> !Known(s, name)
    ensures arm.Some? ==> arm.value in s.arms && arm.value.name == name
  {
    for i := 0 to |s.arms|
      invariant forall j | 0 <= j < i :: s.arms[j].name != name
    {
      if s.arms[i].name == name {
        return Some(s.arms[i]);
      }
    }
    return None;
  }

  method Select(s: Suite) returns (chosen: Option<seq<Arm>>)
    ensures chosen.Some? <==> forall i | 0 <= i < |s.diagnosticArms| :: Known(s, s.diagnosticArms[i])
    ensures chosen.Some? ==> Selects(s, chosen.value)
  {
    var arms: seq<Arm> := [];
    for i := 0 to |s.diagnosticArms|
      invariant |arms| == i && forall j | 0 <= j < i :: Known(s, s.diagnosticArms[j])
      invariant forall j | 0 <= j < i :: arms[j] in s.arms && arms[j].name == s.diagnosticArms[j]
    {
      var arm := Lookup(s, s.diagnosticArms[i]);
      if arm.None? {
        return None;
      }
      arms := arms + [arm.value];
    }
    return Some(arms);
  }

  /** Appends the cases of one repetition and rate, numbered on from the last. */
  method AppendLine(
      cases: seq<Case>, ghost slots: seq<Slot>, delay: nat, diagnostic: bool, repeat: nat, rate: nat, arms: seq<Arm>)
    returns (longer: seq<Case>)
    requires arms != [] && Numbers(cases, slots)
    ensures Numbers(longer, slots + Line(delay, diagnostic, repeat, rate, arms))
  {
    longer := cases;
    ghost var line := Line(delay, diagnostic, repeat, rate, arms);
    var ordered := OrderedArms(arms, repeat);
    for position := 0 to |ordered|
      invariant Numbers(longer, slots + line[..position])
    {
      var ordinal := |longer| + 1;
      longer := longer + [Case(ordinal, Slot(delay, diagnostic, repeat + 1, rate, position + 1, ordered[position]))];
    }
    assert line[..|line|] == line;
  }

  /** Appends the cases of one repetition, rate by rate. */
  method AppendRates(
      cases: seq<Case>, ghost slots: seq<Slot>, delay: nat, diagnostic: bool, repeat: nat, rates: seq<nat>,
      arms: seq<Arm>)
    returns (longer: seq<Case>)
    requires arms != [] && Numbers(cases, slots)
    ensures Numbers(longer, slots + OverRates(delay, diagnostic, repeat, rates, arms))
  {
    longer := cases;
    assert slots + [] == slots;
    for r := 0 to |rates|
      invariant Numbers(longer, slots + OverRates(delay, diagnostic, repeat, rates[..r], arms))
    {
      ghost var done := OverRates(delay, diagnostic, repeat, rates[..r], arms);
      longer := AppendLine(longer, slots + done, delay, diagnostic, repeat, rates[r], arms);
      Grouped(slots, done, Line(delay, diagnostic, repeat, rates[r], arms));
      assert rates[..r + 1][..r] == rates[..r];
    }
    assert rates[..|rates|] == rates;
  }

  method AppendRepeats(
      cases: seq<Case>, ghost slots: seq<Slot>, delay: nat, diagnostic: bool, repeats: nat, rates: seq<nat>,
      arms: seq<Arm>)
    returns (longer: seq<Case>)
    requires arms != [] && Numbers(cases, slots)
    ensures Numbers(longer, slots + OverRepeats(delay, diagnostic, repeats, rates, arms))
  {
    longer := cases;
    assert slots + [] == slots;
    for repeat := 0 to repeats
      invariant Numbers(longer, slots + OverRepeats(delay, diagnostic, repeat, rates, arms))
    {
      ghost var done := OverRepeats(delay, diagnostic, repeat, rates, arms);
      longer := AppendRates(longer, slots + done, delay, diagnostic, repeat, rates, arms);
      Grouped(slots, done, OverRates(delay, diagnostic, repeat, rates, arms));
    }
  }

  lemma Grouped(a: seq<Slot>, b: seq<Slot>, c: seq<Slot>)
    ensures a + b + c == a + (b + c)
  {
  }

  /** The planner: refuses a malformed suite, and otherwise numbers the planned cases from 1. */
  method ExecutionPlan(s: Suite) returns (r: Planned)
    ensures r.Cases? <==> Acceptable(s)
    ensures r.Cases? ==>
      exists chosen :: chosen != [] && Selects(s, chosen) && Numbers(r.cases, OverDelays(s.delays, s, chosen))
    ensures r.Cases? ==> |r.cases| == ExpectedCases(s)
  {
    if s.arms == [] {
      return Refused(NoArms);
    }
    var distinct := AllDistinct(Names(s.arms));
    NamesTellArms(s.arms);
    if !distinct {
      return Refused(RepeatedArm);
    }
    distinct := AllDistinct(s.diagnosticArms);
    if s.diagnosticArms == [] || !distinct {
      return Refused(BadDiagnosticArms);
    }
    var selected := Select(s);
    if selected.None? {
      return Refused(UnknownArm);
    }
    var chosen := selected.value;
    PlanLength(s, chosen);
    var cases := AppendDelays(s, chosen);
    return Cases(cases);
  }

  method AppendDelays(s: Suite, chosen: seq<Arm>) returns (cases: seq<Case>)
    requires s.arms != [] && chosen != []
    ensures Numbers(cases, OverDelays(s.delays, s, chosen))
  {
    cases := [];
    for i := 0 to |s.delays|
      invariant Numbers(cases, OverDelays(s.delays[..i], s, chosen))
    {
      var delay := s.delays[i];
      ghost var done := OverDelays(s.delays[..i], s, chosen);
      ghost var timing := OverRepeats(delay, false, s.runs, s.rates, s.arms);
      cases := AppendRepeats(cases, done, delay, false, s.runs, s.rates, s.arms);
      cases := AppendRepeats(cases, done + timing, delay, true, 1, s.diagnosticRates, chosen);
      Grouped(done, timing, OverRepeats(delay, true, 1, s.diagnosticRates, chosen));
      assert s.delays[..i + 1][..i] == s.delays[..i];
    }
    assert s.delays[..|s.delays|] == s.delays;
  }
}
