/**
The load generator: what each worker records, how the dispatcher, the bounded job channel and
the workers interleave, how the workers' statistics are merged, and the result that is
written, which the evidence validator accepts.
*/
module Loadgen {
  import opened Kv
  import opened Counting
  import opened Histogram
  import opened Evidence

  const SECOND := 1_000_000_000

  datatype Status = Accepted | Undecided | Refused

  /** One finished operation, with times in nanoseconds since the start of the run. */
  datatype Completion = Completion(
    scheduled: int, start: int, end: int, status: Status, answered: bool, attempts: nat)

  predicate Succeeded(e: Completion) {
    e.status.Accepted? && e.answered
  }

  predicate Unknown(e: Completion) {
    e.status.Undecided?
  }

  predicate Failed(e: Completion) {
    !Succeeded(e) && !Unknown(e)
  }

  predicate Everything(e: Completion) {
    true
  }

  function AtLeastOne(n: int): nat {
    if n > 1 then n else 1
  }

  function Latency(e: Completion): nat {
    AtLeastOne(e.end - e.scheduled)
  }

  function Execution(e: Completion): nat {
    AtLeastOne(e.end - e.start)
  }

  function Lateness(e: Completion): nat {
    AtLeastOne(e.start - e.scheduled)
  }

  /** The second in which the operation ended, with the division that rounds toward zero. */
  function SecondOf(e: Completion): int {
    if e.end < 0 then -(-e.end / SECOND) else e.end / SECOND
  }

  /** An operation that started late is charged for the wait: its latency runs from the schedule. */
  lemma LatencyIncludesLateness(e: Completion)
    requires e.scheduled < e.start < e.end
    ensures Latency(e) == Lateness(e) + Execution(e) && Latency(e) == e.end - e.scheduled
  {
  }

  /** An operation is counted in the second that holds its end. */
  lemma SecondHoldsEnd(e: Completion)
    requires 0 <= e.end
    ensures SecondOf(e) * SECOND <= e.end < (SecondOf(e) + 1) * SECOND
  {
  }

  // ---------- Statistics of one worker ----------

  datatype Counts = Counts(attempted: nat, ok: nat, inWindow: nat, unknown: nat, errors: nat, attempts: nat)

  datatype Timings = Timings(latency: Hist, allLatency: Hist, lateness: Hist, execution: Hist, allExecution: Hist)

  datatype Second = Second(ok: nat, unknown: nat, errors: nat, maximum: nat)

  datatype Totals = Totals(counts: Counts, timings: Timings, seconds: map<int, Second>, events: seq<Completion>)

  const NoSecond := Second(0, 0, 0, 0)

  predicate Sized(t: Timings) {
    && |t.latency.bins| == |t.allLatency.bins| == |t.lateness.bins| == BINS
    && |t.execution.bins| == |t.allExecution.bins| == BINS
  }

  function Empty(): Hist {
    Hist(seq(BINS, _ => 0), 0, 0)
  }

  function Nothing(): Totals {
    Totals(Counts(0, 0, 0, 0, 0, 0), Timings(Empty(), Empty(), Empty(), Empty(), Empty()), map[], [])
  }

  function AddedIf(c: bool, h: Hist, n: nat): Hist
    requires |h.bins| == BINS
  {
    if c then Added(h, n) else h
  }

  /** The counters after one more operation. */
  function AfterCounts(t: Counts, e: Completion, window: int): Counts {
    var all := t.(attempted := t.attempted + 1, attempts := t.attempts + e.attempts);
    if Succeeded(e) then all.(ok := t.ok + 1, inWindow := if e.end <= window then t.inWindow + 1 else t.inWindow)
    else if e.status.Undecided? then all.(unknown := t.unknown + 1)
    else all.(errors := t.errors + 1)
  }

  /** The histograms after one more operation. */
  function AfterTimings(t: Timings, e: Completion): Timings
    requires Sized(t)
  {
    Timings(
      AddedIf(Succeeded(e), t.latency, Latency(e)), Added(t.allLatency, Latency(e)), Added(t.lateness, Lateness(e)),
      AddedIf(Succeeded(e), t.execution, Execution(e)), Added(t.allExecution, Execution(e)))
  }

  function SecondAt(seconds: map<int, Second>, sec: int): Second {
    if sec in seconds then seconds[sec] else NoSecond
  }

  /** One second's counters after one more operation that ended in it. */
  function AfterSecond(v: Second, e: Completion): Second {
    if Succeeded(e) then v.(ok := v.ok + 1, maximum := Max(v.maximum, Latency(e)))
    else if e.status.Undecided? then v.(unknown := v.unknown + 1)
    else v.(errors := v.errors + 1)
  }

  function AfterSeconds(seconds: map<int, Second>, e: Completion): map<int, Second> {
    seconds[SecondOf(e) := AfterSecond(SecondAt(seconds, SecondOf(e)), e)]
  }

  function After(t: Totals, e: Completion, window: int, history: bool): Totals
    requires Sized(t.timings)
  {
    Totals(
      AfterCounts(t.counts, e, window), AfterTimings(t.timings, e), AfterSeconds(t.seconds, e),
      if history then t.events + [e] else t.events)
  }

  function PlusCounts(a: Counts, b: Counts): Counts {
    Counts(
      a.attempted + b.attempted, a.ok + b.ok, a.inWindow + b.inWindow, a.unknown + b.unknown,
      a.errors + b.errors, a.attempts + b.attempts)
  }

  function PlusTimings(a: Timings, b: Timings): Timings
    requires Sized(a) && Sized(b)
  {
    Timings(
      MergeOf(a.latency, b.latency), MergeOf(a.allLatency, b.allLatency), MergeOf(a.lateness, b.lateness),
      MergeOf(a.execution, b.execution), MergeOf(a.allExecution, b.allExecution))
  }

  function PlusSecond(a: Second, b: Second): Second {
    Second(a.ok + b.ok, a.unknown + b.unknown, a.errors + b.errors, Max(a.maximum, b.maximum))
  }

  function PlusSeconds(a: map<int, Second>, b: map<int, Second>): map<int, Second> {
    map sec | sec in a.Keys + b.Keys :: PlusSecond(SecondAt(a, sec), SecondAt(b, sec))
  }

  function Plus(a: Totals, b: Totals): Totals
    requires Sized(a.timings) && Sized(b.timings)
  {
    Totals(
      PlusCounts(a.counts, b.counts), PlusTimings(a.timings, b.timings), PlusSeconds(a.seconds, b.seconds),
      a.events + b.events)
  }

  // ---------- What the statistics mean ----------

  /** The recorded samples of one kind, of the operations that satisfy a condition. */
  ghost function Times(s: seq<Completion>, p: Completion -> bool, f: Completion -> nat): seq<nat> {
    if s == [] then []
    else Times(s[..|s| - 1], p, f) + if p(s[|s| - 1]) then [Clamp(f(s[|s| - 1]))] else []
  }

  ghost function Tries(s: seq<Completion>): nat {
    if s == [] then 0 else Tries(s[..|s| - 1]) + s[|s| - 1].attempts
  }

  ghost function InWindow(window: int): Completion -> bool {
    (e: Completion) => Succeeded(e) && e.end <= window
  }

  ghost function Counted(s: seq<Completion>, window: int): Counts {
    Counts(|s|, Count(s, Succeeded), Count(s, InWindow(window)), Count(s, Unknown), Count(s, Failed), Tries(s))
  }

  ghost function Timed(s: seq<Completion>): (t: Timings)
    ensures Sized(t)
  {
    Timings(
      Tally(Times(s, Succeeded, Latency)), Tally(Times(s, Everything, Latency)), Tally(Times(s, Everything, Lateness)),
      Tally(Times(s, Succeeded, Execution)), Tally(Times(s, Everything, Execution)))
  }

  /** The operations that ended in a second and satisfy a condition. */
  ghost function During(sec: int, p: Completion -> bool): Completion -> bool {
    (e: Completion) => SecondOf(e) == sec && p(e)
  }

  /** The greatest latency of the successes that ended in a second. */
  ghost function Slowest(s: seq<Completion>, sec: int): nat {
    if s == [] then 0
    else
      var e := s[|s| - 1];
      Max(Slowest(s[..|s| - 1], sec), if SecondOf(e) == sec && Succeeded(e) then Latency(e) else 0)
  }

  ghost function SecondCounted(s: seq<Completion>, sec: int): Second {
    Second(
      Count(s, During(sec, Succeeded)), Count(s, During(sec, Unknown)), Count(s, During(sec, Failed)), Slowest(s, sec))
  }

  /** The table has exactly the seconds in which an operation ended, with their counts. */
  ghost predicate SecondHolds(seconds: map<int, Second>, s: seq<Completion>, sec: int) {
    && SecondAt(seconds, sec) == SecondCounted(s, sec)
    && (sec in seconds <==> Count(s, During(sec, Everything)) > 0)
  }

  ghost predicate SecondsHold(seconds: map<int, Second>, s: seq<Completion>) {
    forall sec: int :: SecondHolds(seconds, s, sec)
  }

  /** The statistics that a sequence of operations should have, by counting and tallying. */
  ghost predicate Accounts(t: Totals, s: seq<Completion>, window: int, history: bool) {
    && t.counts == Counted(s, window) && t.timings == Timed(s) && SecondsHold(t.seconds, s)
    && t.events == (if history then s else [])
  }

  // ---------- Recording one operation ----------

  lemma AddsTime(s: seq<Completion>, e: Completion, p: Completion -> bool, f: Completion -> nat)
    ensures AddedIf(p(e), Tally(Times(s, p, f)), f(e)) == Tally(Times(s + [e], p, f))
  {
    assert (s + [e])[..|s|] == s;
    if p(e) {
      ClampIsSample(f(e));
      AddTallies(Times(s, p, f), Clamp(f(e)));
    } else {
      assert Times(s + [e], p, f) == Times(s, p, f);
    }
  }

  lemma TriesOneMore(s: seq<Completion>, e: Completion)
    ensures Tries(s + [e]) == Tries(s) + e.attempts
  {
    assert (s + [e])[..|s|] == s;
  }

  lemma CountsOneMore(s: seq<Completion>, e: Completion, window: int)
    ensures AfterCounts(Counted(s, window), e, window) == Counted(s + [e], window)
  {
    CountOneMore(s, e, Succeeded);
    CountOneMore(s, e, InWindow(window));
    CountOneMore(s, e, Unknown);
    CountOneMore(s, e, Failed);
    TriesOneMore(s, e);
  }

  lemma TimesOneMore(s: seq<Completion>, e: Completion)
    ensures AfterTimings(Timed(s), e) == Timed(s + [e])
  {
    AddsTime(s, e, Everything, Latency);
    AddsTime(s, e, Everything, Lateness);
    AddsTime(s, e, Everything, Execution);
    AddsTime(s, e, Succeeded, Latency);
    AddsTime(s, e, Succeeded, Execution);
  }

  lemma SlowestOneMore(s: seq<Completion>, e: Completion, sec: int)
    ensures Slowest(s + [e], sec) ==
            if SecondOf(e) == sec && Succeeded(e) then Max(Slowest(s, sec), Latency(e)) else Slowest(s, sec)
  {
    assert (s + [e])[..|s|] == s;
  }

  lemma SecondOneMore(seconds: map<int, Second>, s: seq<Completion>, e: Completion, sec: int)
    requires SecondHolds(seconds, s, sec)
    ensures SecondHolds(AfterSeconds(seconds, e), s + [e], sec)
  {
    DuringOneMore(s, e, sec, Succeeded);
    DuringOneMore(s, e, sec, Unknown);
    DuringOneMore(s, e, sec, Failed);
    DuringOneMore(s, e, sec, Everything);
    SlowestOneMore(s, e, sec);
  }

  lemma DuringOneMore(s: seq<Completion>, e: Completion, sec: int, p: Completion -> bool)
    ensures Count(s + [e], During(sec, p)) == Count(s, During(sec, p)) + Unit(SecondOf(e) == sec && p(e))
  {
    CountOneMore(s, e, During(sec, p));
  }

  lemma SecondsOneMore(seconds: map<int, Second>, s: seq<Completion>, e: Completion)
    requires SecondsHold(seconds, s)
    ensures SecondsHold(AfterSeconds(seconds, e), s + [e])
  {
    forall sec: int ensures SecondHolds(AfterSeconds(seconds, e), s + [e], sec) {
      assert SecondHolds(seconds, s, sec);
      SecondOneMore(seconds, s, e, sec);
    }
  }

  /** Recording one operation keeps the account. */
  lemma AfterAccounts(t: Totals, s: seq<Completion>, e: Completion, window: int, history: bool)
    requires Accounts(t, s, window, history)
    ensures Accounts(After(t, e, window, history), s + [e], window, history)
  {
    CountsOneMore(s, e, window);
    TimesOneMore(s, e);
    SecondsOneMore(t.seconds, s, e);
  }

  // ---------- Merging two workers ----------

  lemma {:induction false} TriesSplit(a: seq<Completion>, b: seq<Completion>)
    ensures Tries(a + b) == Tries(a) + Tries(b)
  {
    if b == [] {
      assert a + b == a;
    } else {
      assert (a + b)[..|a + b| - 1] == a + b[..|b| - 1];
      TriesSplit(a, b[..|b| - 1]);
    }
  }

  lemma {:induction false} TimesSplit(a: seq<Completion>, b: seq<Completion>, p: Completion -> bool, f: Completion -> nat)
    ensures Times(a + b, p, f) == Times(a, p, f) + Times(b, p, f)
  {
    if b == [] {
      assert a + b == a;
    } else {
      assert (a + b)[..|a + b| - 1] == a + b[..|b| - 1];
      TimesSplit(a, b[..|b| - 1], p, f);
    }
  }

  lemma {:induction false} SlowestSplits(a: seq<Completion>, b: seq<Completion>, sec: int)
    ensures Slowest(a + b, sec) == Max(Slowest(a, sec), Slowest(b, sec))
  {
    if b == [] {
      assert a + b == a;
    } else {
      assert (a + b)[..|a + b| - 1] == a + b[..|b| - 1];
      SlowestSplits(a, b[..|b| - 1], sec);
    }
  }

  lemma TimesMerge(a: seq<Completion>, b: seq<Completion>, p: Completion -> bool, f: Completion -> nat)
    ensures MergeOf(Tally(Times(a, p, f)), Tally(Times(b, p, f))) == Tally(Times(a + b, p, f))
  {
    TimesSplit(a, b, p, f);
    MergeTallies(Times(a, p, f), Times(b, p, f));
  }

  lemma CountsAdd(a: seq<Completion>, b: seq<Completion>, window: int)
    ensures PlusCounts(Counted(a, window), Counted(b, window)) == Counted(a + b, window)
  {
    CountSplits(a, b, Succeeded);
    CountSplits(a, b, InWindow(window));
    CountSplits(a, b, Unknown);
    CountSplits(a, b, Failed);
    TriesSplit(a, b);
    CountsMatch(
      Counted(a, window), Counted(b, window), |a + b|, Count(a + b, Succeeded), Count(a + b, InWindow(window)),
      Count(a + b, Unknown), Count(a + b, Failed), Tries(a + b));
  }

  lemma CountsMatch(x: Counts, y: Counts, attempted: nat, ok: nat, inWindow: nat, unknown: nat, errors: nat, attempts: nat)
    requires attempted == x.attempted + y.attempted && ok == x.ok + y.ok && inWindow == x.inWindow + y.inWindow
    requires unknown == x.unknown + y.unknown && errors == x.errors + y.errors && attempts == x.attempts + y.attempts
    ensures PlusCounts(x, y) == Counts(attempted, ok, inWindow, unknown, errors, attempts)
  {
  }

  lemma TimingsAdd(a: seq<Completion>, b: seq<Completion>)
    ensures PlusTimings(Timed(a), Timed(b)) == Timed(a + b)
  {
    TimesMerge(a, b, Succeeded, Latency);
    TimesMerge(a, b, Everything, Latency);
    TimesMerge(a, b, Everything, Lateness);
    TimesMerge(a, b, Succeeded, Execution);
    TimesMerge(a, b, Everything, Execution);
  }

  lemma SecondAdds(x: map<int, Second>, y: map<int, Second>, a: seq<Completion>, b: seq<Completion>, sec: int)
    requires SecondHolds(x, a, sec) && SecondHolds(y, b, sec)
    ensures SecondHolds(PlusSeconds(x, y), a + b, sec)
  {
    CountSplits(a, b, During(sec, Succeeded));
    CountSplits(a, b, During(sec, Unknown));
    CountSplits(a, b, During(sec, Failed));
    CountSplits(a, b, During(sec, Everything));
    SlowestSplits(a, b, sec);
  }

  lemma SecondsAdd(x: map<int, Second>, y: map<int, Second>, a: seq<Completion>, b: seq<Completion>)
    requires SecondsHold(x, a) && SecondsHold(y, b)
    ensures SecondsHold(PlusSeconds(x, y), a + b)
  {
    forall sec: int ensures SecondHolds(PlusSeconds(x, y), a + b, sec) {
      assert SecondHolds(x, a, sec) && SecondHolds(y, b, sec);
      SecondAdds(x, y, a, b, sec);
    }
  }

  /** Merging two workers' statistics accounts for the operations of both. */
  lemma PlusAccounts(t: Totals, u: Totals, a: seq<Completion>, b: seq<Completion>, window: int, history: bool)
    requires Accounts(t, a, window, history) && Accounts(u, b, window, history)
    ensures Accounts(Plus(t, u), a + b, window, history)
  {
    CountsAdd(a, b, window);
    TimingsAdd(a, b);
    SecondsAdd(t.seconds, u.seconds, a, b);
  }

  lemma NothingAccounts(window: int, history: bool)
    ensures Accounts(Nothing(), [], window, history)
  {
    assert Empty() == Tally([]);
    forall sec: int ensures SecondHolds(map[], [], sec) {
    }
  }

  // ---------- What the account satisfies ----------

  /** Each operation falls in exactly one class; those in the window are successes. */
  lemma {:induction false} ClassesPartition(s: seq<Completion>, window: int)
    ensures Count(s, Succeeded) + Count(s, Unknown) + Count(s, Failed) == |s|
    ensures Count(s, InWindow(window)) <= Count(s, Succeeded)
  {
    if s != [] {
      ClassesPartition(s[..|s| - 1], window);
    }
  }

  lemma {:induction false} TimesAreSamples(s: seq<Completion>, p: Completion -> bool, f: Completion -> nat)
    ensures Samples(Times(s, p, f)) && |Times(s, p, f)| == Count(s, p)
  {
    if s != [] {
      TimesAreSamples(s[..|s| - 1], p, f);
      ClampIsSample(f(s[|s| - 1]));
    }
  }

  lemma TimesPass(s: seq<Completion>, p: Completion -> bool, f: Completion -> nat)
    ensures PassesValidation(Tally(Times(s, p, f)), Count(s, p))
  {
    TimesAreSamples(s, p, f);
    TallyPassesValidation(Times(s, p, f));
  }

  /** The statistics of any operations satisfy every count and histogram equation. */
  lemma AccountValidates(s: seq<Completion>, window: int)
    ensures var c, t := Counted(s, window), Timed(s);
            && c.attempted == c.ok + c.unknown + c.errors && c.inWindow <= c.ok
            && PassesValidation(t.latency, c.ok) && PassesValidation(t.allLatency, c.attempted)
            && PassesValidation(t.execution, c.ok) && PassesValidation(t.allExecution, c.attempted)
            && PassesValidation(t.lateness, c.attempted)
  {
    ClassesPartition(s, window);
    CountAll(s, Everything);
    TimesPass(s, Succeeded, Latency);
    TimesPass(s, Everything, Latency);
    TimesPass(s, Succeeded, Execution);
    TimesPass(s, Everything, Execution);
    TimesPass(s, Everything, Lateness);
  }

  /** A worker's statistics, updated in place. */
  class Stats {
    var attempted: nat
    var ok: nat
    var inWindow: nat
    var unknown: nat
    var errors: nat
    var attempts: nat
    var latency: Hist
    var allLatency: Hist
    var lateness: Hist
    var execution: Hist
    var allExecution: Hist
    var seconds: map<int, Second>
    var events: seq<Completion>

    function Value(): Totals
      reads this
    {
      Totals(
        Counts(attempted, ok, inWindow, unknown, errors, attempts),
        Timings(latency, allLatency, lateness, execution, allExecution), seconds, events)
    }

    constructor ()
      ensures Value() == Nothing()
    {
      attempted, ok, inWindow, unknown, errors, attempts := 0, 0, 0, 0, 0, 0;
      latency, allLatency, lateness, execution, allExecution := Empty(), Empty(), Empty(), Empty(), Empty();
      seconds, events := map[], [];
    }

    /** Records one operation in the counters, the histograms, the table of seconds and the events. */
    method Record(e: Completion, window: int, history: bool)
      requires Sized(Value().timings)
      modifies this
      ensures Value() == After(old(Value()), e, window, history)
    {
      CountOne(e, window);
      Time(e);
      CountSecond(e);
      if history {
        events := events + [e];
      }
    }

    method CountOne(e: Completion, window: int)
      modifies this`attempted, this`ok, this`inWindow, this`unknown, this`errors, this`attempts
      ensures Value().counts == AfterCounts(old(Value().counts), e, window)
    {
      attempted := attempted + 1;
      attempts := attempts + e.attempts;
      if Succeeded(e) {
        ok := ok + 1;
        if e.end <= window {
          inWindow := inWindow + 1;
        }
      } else if e.status.Undecided? {
        unknown := unknown + 1;
      } else {
        errors := errors + 1;
      }
    }

    method Time(e: Completion)
      requires Sized(Value().timings)
      modifies this`latency, this`allLatency, this`lateness, this`execution, this`allExecution
      ensures Value().timings == AfterTimings(old(Value().timings), e)
    {
      allLatency := Added(allLatency, Latency(e));
      allExecution := Added(allExecution, Execution(e));
      lateness := Added(lateness, Lateness(e));
      if Succeeded(e) {
        latency := Added(latency, Latency(e));
        execution := Added(execution, Execution(e));
      }
    }

    method CountSecond(e: Completion)
      modifies this`seconds
      ensures seconds == AfterSeconds(old(seconds), e)
    {
      var sec := SecondOf(e);
      if sec !in seconds {
        seconds := seconds[sec := NoSecond];
      }
      var v := seconds[sec];
      if Succeeded(e) {
        v := v.(ok := v.ok + 1);
        if Latency(e) > v.maximum {
          v := v.(maximum := Latency(e));
        }
      } else if e.status.Undecided? {
        v := v.(unknown := v.unknown + 1);
      } else {
        v := v.(errors := v.errors + 1);
      }
      seconds := seconds[sec := v];
    }

    /** Adds another worker's statistics. */
    method Absorb(s: Totals)
      requires Sized(Value().timings) && Sized(s.timings)
      modifies this
      ensures Value() == Plus(old(Value()), s)
    {
      AbsorbCounts(s.counts);
      AbsorbTimings(s.timings);
      AbsorbSeconds(s.seconds);
      events := events + s.events;
    }

    method AbsorbCounts(c: Counts)
      modifies this`attempted, this`ok, this`inWindow, this`unknown, this`errors, this`attempts
      ensures Value().counts == PlusCounts(old(Value().counts), c)
    {
      attempted := attempted + c.attempted;
      ok := ok + c.ok;
      inWindow := inWindow + c.inWindow;
      unknown := unknown + c.unknown;
      errors := errors + c.errors;
      attempts := attempts + c.attempts;
    }

    method AbsorbTimings(t: Timings)
      requires Sized(Value().timings) && Sized(t)
      modifies this`latency, this`allLatency, this`lateness, this`execution, this`allExecution
      ensures Value().timings == PlusTimings(old(Value().timings), t)
    {
      latency := MergeOf(latency, t.latency);
      allLatency := MergeOf(allLatency, t.allLatency);
      execution := MergeOf(execution, t.execution);
      allExecution := MergeOf(allExecution, t.allExecution);
      lateness := MergeOf(lateness, t.lateness);
    }

    method AbsorbSeconds(more: map<int, Second>)
      modifies this`seconds
      ensures seconds == PlusSeconds(old(seconds), more)
    {
      var todo: set<int> := more.Keys;
      while todo != {}
        invariant todo <= more.Keys && seconds.Keys == old(seconds).Keys + (more.Keys - todo)
        invariant forall sec | sec in seconds :: seconds[sec] == Merged(old(seconds), more, todo, sec)
        decreases todo
      {
        var sec := Pick(todo);
        if sec !in seconds {
          seconds := seconds[sec := NoSecond];
        }
        seconds := seconds[sec := PlusSecond(seconds[sec], more[sec])];
        todo := todo - {sec};
      }
    }

    /** What a second holds while some of the other table's seconds are still to be added. */
    ghost function Merged(before: map<int, Second>, more: map<int, Second>, todo: set<int>, sec: int): Second {
      if sec in todo then SecondAt(before, sec) else PlusSecond(SecondAt(before, sec), SecondAt(more, sec))
    }
  }

  // ---------- The interleaving ----------

  /** A worker: the operation it is executing, if any, and what it has recorded. */
  datatype Worker = Worker(job: Option<int>, stats: Totals, events: seq<Completion>)

  /** The run's options: arrivals per second, the window, workers, operation cap, and whether events are kept. */
  datatype Options = Options(rate: real, window: int, concurrency: nat, operations: nat, history: bool) {
    /** A positive rate selects scheduled arrivals, zero the closed loop. */
    predicate Scheduled() {
      rate > 0.0
    }
  }

  /**
  `accepted` lists the arrivals that entered the job channel. A worker that stops leaves
  `workers` and its statistics enter the result channel.
  */
  datatype Generator = Generator(
    offered: nat, dropped: nat, scheduler: Hist, late: seq<nat>, accepted: seq<int>, jobs: seq<int>, closed: bool,
    ordinal: nat, workers: seq<Worker>, results: seq<Worker>)

  ghost predicate Starts(o: Options, g: Generator) {
    && o.concurrency >= 1 && o.rate >= 0.0
    && g.offered == g.dropped == g.ordinal == 0 && g.scheduler == Empty() && g.late == []
    && g.accepted == g.jobs == [] && !g.closed && g.results == []
    && |g.workers| == o.concurrency
    && forall i | 0 <= i < |g.workers| :: g.workers[i] == Worker(None, Nothing(), [])
  }

  /** The dispatcher offers one arrival; a full channel drops it. */
  ghost predicate Dispatches(o: Options, g: Generator, h: Generator, scheduled: int, late: int) {
    && o.Scheduled() && !g.closed && (o.operations == 0 || g.offered < o.operations) && |g.scheduler.bins| == BINS
    && var offered := g.(
         offered := g.offered + 1,
         scheduler := Added(g.scheduler, AtLeastOne(late)),
         late := g.late + [Clamp(AtLeastOne(late))]);
       h == if |g.jobs| < o.concurrency
            then offered.(jobs := g.jobs + [scheduled], accepted := g.accepted + [scheduled])
            else offered.(dropped := g.dropped + 1)
  }

  ghost predicate Closes(o: Options, g: Generator, h: Generator) {
    o.Scheduled() && !g.closed && h == g.(closed := true)
  }

  /** An idle worker receives a job, or in a closed loop takes an ordinal within the cap. */
  ghost predicate Takes(o: Options, g: Generator, h: Generator, w: nat, now: int) {
    && w < |g.workers| && g.workers[w].job.None?
    && if o.Scheduled() then
         && g.jobs != []
         && h == g.(jobs := g.jobs[1..], workers := g.workers[w := g.workers[w].(job := Some(g.jobs[0]))])
       else
         && (o.operations == 0 || g.ordinal + 1 <= o.operations)
         && h == g.(ordinal := g.ordinal + 1, workers := g.workers[w := g.workers[w].(job := Some(now))])
  }

  /** A busy worker finishes and records its operation, however it went. */
  ghost predicate Finishes(o: Options, g: Generator, h: Generator, w: nat, e: Completion) {
    && w < |g.workers| && g.workers[w].job == Some(e.scheduled) && Sized(g.workers[w].stats.timings)
    && h == g.(workers := g.workers[w := Recording(o, g.workers[w], e)])
  }

  ghost function Recording(o: Options, w: Worker, e: Completion): Worker
    requires Sized(w.stats.timings)
  {
    Worker(None, After(w.stats, e, o.window, o.history), w.events + [e])
  }

  /** A worker stops: at the drained closed channel, or at the deadline or cap of a closed loop. */
  ghost predicate Stops(o: Options, g: Generator, h: Generator, w: nat, counted: bool) {
    && w < |g.workers| && g.workers[w].job.None?
    && (if o.Scheduled() then g.closed && g.jobs == []
        else !counted || (o.operations > 0 && g.ordinal + 1 > o.operations))
    && h == g.(
         ordinal := if !o.Scheduled() && counted then g.ordinal + 1 else g.ordinal,
         workers := g.workers[..w] + g.workers[w + 1..],
         results := g.results + [g.workers[w]])
  }

  datatype Action =
    | Dispatch(time: int, late: int)
    | Close
    | Take(worker: nat, now: int)
    | Finish(worker: nat, event: Completion)
    | Stop(worker: nat, counted: bool)

  ghost predicate Next(o: Options, g: Generator, h: Generator, a: Action) {
    match a
    case Dispatch(time, late) => Dispatches(o, g, h, time, late)
    case Close => Closes(o, g, h)
    case Take(w, now) => Takes(o, g, h, w, now)
    case Finish(w, e) => Finishes(o, g, h, w, e)
    case Stop(w, counted) => Stops(o, g, h, w, counted)
  }

  ghost predicate IsRun(o: Options, run: seq<Generator>, actions: seq<Action>) {
    && |run| == |actions| + 1 && Starts(o, run[0])
    && forall i | 0 <= i < |actions| :: Link(o, run, actions, i)
  }

  ghost predicate Link(o: Options, run: seq<Generator>, actions: seq<Action>, i: int)
    requires 0 <= i < |actions| && |run| == |actions| + 1
  {
    Next(o, run[i], run[i + 1], actions[i])
  }

  // ---------- Conservation ----------

  /** Which scheduled times are counted: one, or all of them. */
  predicate Chosen(k: Option<int>, time: int) {
    k.None? || k.value == time
  }

  ghost function At(k: Option<int>): int -> bool {
    (time: int) => Chosen(k, time)
  }

  ghost function ScheduledAt(k: Option<int>): Completion -> bool {
    (e: Completion) => Chosen(k, e.scheduled)
  }

  /** The operations a worker has taken: recorded, and in hand. */
  ghost function Taken(w: Worker, k: Option<int>): nat {
    Count(w.events, ScheduledAt(k)) + if w.job.Some? then Unit(Chosen(k, w.job.value)) else 0
  }

  ghost function Held(ws: seq<Worker>, k: Option<int>): nat {
    if ws == [] then 0 else Held(ws[..|ws| - 1], k) + Taken(ws[|ws| - 1], k)
  }

  lemma {:induction false} HeldSplits(a: seq<Worker>, b: seq<Worker>, k: Option<int>)
    ensures Held(a + b, k) == Held(a, k) + Held(b, k)
  {
    if b == [] {
      assert a + b == a;
    } else {
      assert (a + b)[..|a + b| - 1] == a + b[..|b| - 1];
      HeldSplits(a, b[..|b| - 1], k);
    }
  }

  lemma HeldAt(ws: seq<Worker>, w: nat, k: Option<int>)
    requires w < |ws|
    ensures Held(ws, k) == Held(ws[..w] + ws[w + 1..], k) + Taken(ws[w], k)
  {
    var front, rest := ws[..w], ws[w + 1..];
    assert ws == ws[..w + 1] + rest && ws[..w + 1][..w] == front;
    HeldSplits(ws[..w + 1], rest, k);
    HeldSplits(front, rest, k);
  }

  lemma HeldUpdate(ws: seq<Worker>, w: nat, v: Worker, k: Option<int>)
    requires w < |ws|
    ensures Held(ws[w := v], k) == Held(ws, k) - Taken(ws[w], k) + Taken(v, k)
  {
    HeldAt(ws, w, k);
    HeldAt(ws[w := v], w, k);
    assert ws[w := v][..w] + ws[w := v][w + 1..] == ws[..w] + ws[w + 1..];
  }

  ghost predicate Accounted(o: Options, ws: seq<Worker>) {
    forall i | 0 <= i < |ws| :: Accounts(ws[i].stats, ws[i].events, o.window, o.history)
  }

  /** Every accepted arrival is waiting, in hand or recorded, exactly once. */
  ghost predicate Conserved(g: Generator, k: Option<int>) {
    Count(g.accepted, At(k)) == Count(g.jobs, At(k)) + Held(g.workers, k) + Held(g.results, k)
  }

  ghost predicate ArrivalsKept(o: Options, g: Generator) {
    && g.offered == g.dropped + |g.accepted|
    && (o.Scheduled() ==> forall k: Option<int> :: Conserved(g, k))
    && (!o.Scheduled() ==> g.offered == 0)
  }

  /** The operation cap bounds what is offered, and what is begun. */
  ghost predicate Capped(o: Options, g: Generator) {
    && (o.Scheduled() && o.operations > 0 ==> g.offered <= o.operations)
    && (!o.Scheduled() ==>
          Held(g.workers, None) + Held(g.results, None) <= g.ordinal &&
          (o.operations > 0 ==> Held(g.workers, None) + Held(g.results, None) <= o.operations))
  }

  ghost predicate ChannelKept(o: Options, g: Generator) {
    && |g.jobs| <= o.concurrency && |g.workers| + |g.results| == o.concurrency >= 1
    && (o.Scheduled() && g.results != [] ==> g.closed && g.jobs == [])
    && forall i | 0 <= i < |g.results| :: g.results[i].job.None?
  }

  ghost predicate SchedulerKept(g: Generator) {
    Samples(g.late) && |g.late| == g.offered && g.scheduler == Tally(g.late)
  }

  ghost predicate Flow(o: Options, g: Generator) {
    ArrivalsKept(o, g) && Capped(o, g) && ChannelKept(o, g)
  }

  ghost predicate Books(o: Options, g: Generator) {
    SchedulerKept(g) && Accounted(o, g.workers) && Accounted(o, g.results)
  }

  ghost predicate Inv(o: Options, g: Generator) {
    Flow(o, g) && Books(o, g)
  }

  lemma {:induction false} IdleHoldNothing(ws: seq<Worker>, k: Option<int>)
    requires forall i | 0 <= i < |ws| :: ws[i] == Worker(None, Nothing(), [])
    ensures Held(ws, k) == 0
  {
    if ws != [] {
      IdleHoldNothing(ws[..|ws| - 1], k);
    }
  }

  lemma StartKeeps(o: Options, g: Generator)
    requires Starts(o, g)
    ensures Inv(o, g)
  {
    forall k: Option<int> ensures Held(g.workers, k) == 0 && Conserved(g, k) {
      IdleHoldNothing(g.workers, k);
    }
    NothingAccounts(o.window, o.history);
    assert Empty() == Tally([]);
  }

  lemma DispatchFlows(o: Options, g: Generator, h: Generator, scheduled: int, late: int)
    requires Flow(o, g) && Dispatches(o, g, h, scheduled, late)
    ensures Flow(o, h)
  {
    forall k: Option<int> ensures Conserved(h, k) {
      assert Conserved(g, k);
      CountOneMore(g.jobs, scheduled, At(k));
      CountOneMore(g.accepted, scheduled, At(k));
    }
  }

  lemma DispatchBooks(o: Options, g: Generator, h: Generator, scheduled: int, late: int)
    requires Books(o, g) && Dispatches(o, g, h, scheduled, late)
    ensures Books(o, h)
  {
    OneMoreLate(g.late, AtLeastOne(late));
  }

  lemma OneMoreLate(late: seq<nat>, n: nat)
    requires Samples(late)
    ensures Samples(late + [Clamp(n)]) && Added(Tally(late), n) == Tally(late + [Clamp(n)])
  {
    ClampIsSample(n);
    AddTallies(late, Clamp(n));
  }

  lemma TakeConserves(o: Options, g: Generator, h: Generator, w: nat, now: int, k: Option<int>)
    requires Takes(o, g, h, w, now)
    ensures Held(h.workers, k) == Held(g.workers, k) + Unit(Chosen(k, if o.Scheduled() then g.jobs[0] else now))
    ensures o.Scheduled() ==> Count(g.jobs, At(k)) == Unit(Chosen(k, g.jobs[0])) + Count(h.jobs, At(k))
  {
    HeldUpdate(g.workers, w, h.workers[w], k);
    if o.Scheduled() {
      assert g.jobs == [g.jobs[0]] + g.jobs[1..];
      CountSplits([g.jobs[0]], g.jobs[1..], At(k));
      CountOneMore([], g.jobs[0], At(k));
    }
  }

  lemma TakeFlows(o: Options, g: Generator, h: Generator, w: nat, now: int)
    requires Flow(o, g) && Takes(o, g, h, w, now)
    ensures Flow(o, h)
  {
    TakeConserves(o, g, h, w, now, None);
    forall k: Option<int> | o.Scheduled() ensures Conserved(h, k) {
      assert Conserved(g, k);
      TakeConserves(o, g, h, w, now, k);
    }
  }

  lemma FinishConserves(o: Options, g: Generator, h: Generator, w: nat, e: Completion, k: Option<int>)
    requires Finishes(o, g, h, w, e)
    ensures Held(h.workers, k) == Held(g.workers, k)
  {
    var u, v := g.workers[w], h.workers[w];
    HeldUpdate(g.workers, w, v, k);
    CountOneMore(u.events, e, ScheduledAt(k));
  }

  lemma FinishFlows(o: Options, g: Generator, h: Generator, w: nat, e: Completion)
    requires Flow(o, g) && Finishes(o, g, h, w, e)
    ensures Flow(o, h)
  {
    FinishConserves(o, g, h, w, e, None);
    forall k: Option<int> | o.Scheduled() ensures Conserved(h, k) {
      assert Conserved(g, k);
      FinishConserves(o, g, h, w, e, k);
    }
  }

  lemma FinishBooks(o: Options, g: Generator, h: Generator, w: nat, e: Completion)
    requires Books(o, g) && Finishes(o, g, h, w, e)
    ensures Books(o, h)
  {
    AfterAccounts(g.workers[w].stats, g.workers[w].events, e, o.window, o.history);
  }

  lemma StopConserves(o: Options, g: Generator, h: Generator, w: nat, counted: bool, k: Option<int>)
    requires Stops(o, g, h, w, counted)
    ensures Held(h.workers, k) + Held(h.results, k) == Held(g.workers, k) + Held(g.results, k)
  {
    HeldAt(g.workers, w, k);
    assert h.results[..|h.results| - 1] == g.results;
  }

  lemma StopArrivals(o: Options, g: Generator, h: Generator, w: nat, counted: bool)
    requires ArrivalsKept(o, g) && Stops(o, g, h, w, counted)
    ensures ArrivalsKept(o, h)
  {
    forall k: Option<int> | o.Scheduled() ensures Conserved(h, k) {
      assert Conserved(g, k);
      StopConserves(o, g, h, w, counted, k);
    }
  }

  lemma StopCapped(o: Options, g: Generator, h: Generator, w: nat, counted: bool)
    requires Capped(o, g) && Stops(o, g, h, w, counted)
    ensures Capped(o, h)
  {
    StopConserves(o, g, h, w, counted, None);
  }

  lemma StopChannel(o: Options, g: Generator, h: Generator, w: nat, counted: bool)
    requires ChannelKept(o, g) && Stops(o, g, h, w, counted)
    ensures ChannelKept(o, h)
  {
  }

  lemma StopFlows(o: Options, g: Generator, h: Generator, w: nat, counted: bool)
    requires Flow(o, g) && Stops(o, g, h, w, counted)
    ensures Flow(o, h)
  {
    StopArrivals(o, g, h, w, counted);
    StopCapped(o, g, h, w, counted);
    StopChannel(o, g, h, w, counted);
  }

  lemma CloseKeeps(o: Options, g: Generator, h: Generator)
    requires Inv(o, g) && Closes(o, g, h)
    ensures Inv(o, h)
  {
    forall k: Option<int> ensures Conserved(h, k) {
      assert Conserved(g, k);
    }
  }

  lemma TakeBooks(o: Options, g: Generator, h: Generator, w: nat, now: int)
    requires Books(o, g) && Takes(o, g, h, w, now)
    ensures Books(o, h)
  {
  }

  lemma StopBooks(o: Options, g: Generator, h: Generator, w: nat, counted: bool)
    requires Books(o, g) && Stops(o, g, h, w, counted)
    ensures Books(o, h)
  {
  }

  lemma NextKeeps(o: Options, g: Generator, h: Generator, a: Action)
    requires Inv(o, g) && Next(o, g, h, a)
    ensures Inv(o, h)
  {
    match a
    case Dispatch(time, late) =>
      DispatchFlows(o, g, h, time, late);
      DispatchBooks(o, g, h, time, late);
    case Close => CloseKeeps(o, g, h);
    case Take(w, now) =>
      TakeFlows(o, g, h, w, now);
      TakeBooks(o, g, h, w, now);
    case Finish(w, e) =>
      FinishFlows(o, g, h, w, e);
      FinishBooks(o, g, h, w, e);
    case Stop(w, counted) =>
      StopFlows(o, g, h, w, counted);
      StopBooks(o, g, h, w, counted);
  }

  lemma {:induction false} RunIsSafe(o: Options, run: seq<Generator>, actions: seq<Action>, i: nat)
    requires IsRun(o, run, actions) && i < |run|
    ensures Inv(o, run[i])
  {
    if i == 0 {
      StartKeeps(o, run[0]);
    } else {
      RunIsSafe(o, run, actions, i - 1);
      assert Link(o, run, actions, i - 1);
      NextKeeps(o, run[i - 1], run[i], actions[i - 1]);
    }
  }

  // ---------- Every run can be ended ----------

  lemma RunExtends(o: Options, run: seq<Generator>, actions: seq<Action>, h: Generator, a: Action)
    requires IsRun(o, run, actions) && Next(o, run[|actions|], h, a)
    ensures IsRun(o, run + [h], actions + [a])
  {
    var longer, more := run + [h], actions + [a];
    forall i | 0 <= i < |more| ensures Link(o, longer, more, i) {
      if i < |actions| {
        assert Link(o, run, actions, i);
      }
    }
  }

  /** A worker that is left finishes its job, takes the next one or stops; the channel is closed first. */
  lemma OneMoreStep(o: Options, g: Generator) returns (h: Generator, a: Action)
    requires Inv(o, g) && g.workers != []
    ensures Next(o, g, h, a)
    ensures |h.workers| < |g.workers| || (|h.workers| == |g.workers| && Closer(g, h))
  {
    var w := g.workers[0];
    if w.job.Some? {
      var e := Completion(w.job.value, w.job.value, w.job.value, Undecided, false, 1);
      assert Accounts(w.stats, w.events, o.window, o.history);
      h, a := g.(workers := g.workers[0 := Recording(o, w, e)]), Finish(0, e);
    } else if !o.Scheduled() {
      h, a := g.(workers := g.workers[..0] + g.workers[1..], results := g.results + [w]), Stop(0, false);
    } else if !g.closed {
      h, a := g.(closed := true), Close;
    } else if g.jobs != [] {
      h, a := g.(jobs := g.jobs[1..], workers := g.workers[0 := w.(job := Some(g.jobs[0]))]), Take(0, 0);
    } else {
      h, a := g.(workers := g.workers[..0] + g.workers[1..], results := g.results + [w]), Stop(0, false);
    }
  }

  /** With as many workers as before, the channel was closed, a job taken or a job finished. */
  ghost predicate Closer(g: Generator, h: Generator)
    requires |h.workers| == |g.workers| > 0
  {
    || (h.closed && !g.closed)
    || (h.closed == g.closed && |h.jobs| < |g.jobs|)
    || (h.closed == g.closed && |h.jobs| == |g.jobs| && h.workers[0].job.None? && g.workers[0].job.Some?)
  }

  ghost function Busy(g: Generator): nat {
    if g.workers != [] && g.workers[0].job.Some? then 1 else 0
  }

  /** However the workers and the dispatcher have interleaved, every worker can still come to its end. */
  lemma {:induction false} RunCanEnd(o: Options, run: seq<Generator>, actions: seq<Action>)
    returns (longer: seq<Generator>, more: seq<Action>)
    requires IsRun(o, run, actions)
    ensures IsRun(o, longer, more) && run <= longer && actions <= more && longer[|more|].workers == []
    decreases |run[|actions|].workers|, !run[|actions|].closed, |run[|actions|].jobs|, Busy(run[|actions|])
  {
    longer, more := run, actions;
    if run[|actions|].workers != [] {
      RunIsSafe(o, run, actions, |actions|);
      var h, a := OneMoreStep(o, run[|actions|]);
      RunExtends(o, run, actions, h, a);
      longer, more := RunCanEnd(o, run + [h], actions + [a]);
    }
  }

  // ---------- The merged result ----------

  ghost function Joined(ws: seq<Worker>): seq<Completion> {
    if ws == [] then [] else Joined(ws[..|ws| - 1]) + ws[|ws| - 1].events
  }

  lemma {:induction false} JoinedIsHeld(ws: seq<Worker>, k: Option<int>)
    requires forall i | 0 <= i < |ws| :: ws[i].job.None?
    ensures Count(Joined(ws), ScheduledAt(k)) == Held(ws, k)
  {
    if ws != [] {
      JoinedIsHeld(ws[..|ws| - 1], k);
      CountSplits(Joined(ws[..|ws| - 1]), ws[|ws| - 1].events, ScheduledAt(k));
    }
  }

  /** Once every worker has stopped, each accepted arrival was executed exactly once. */
  lemma AcceptedOnce(o: Options, g: Generator)
    requires Inv(o, g) && g.workers == []
    ensures o.Scheduled() ==> forall k: Option<int> :: Count(Joined(g.results), ScheduledAt(k)) == Count(g.accepted, At(k))
    ensures o.Scheduled() ==> g.offered == |Joined(g.results)| + g.dropped
    ensures !o.Scheduled() ==> g.offered == g.dropped == 0
    ensures !o.Scheduled() && o.operations > 0 ==> |Joined(g.results)| <= o.operations
  {
    var s := Joined(g.results);
    forall k: Option<int> ensures o.Scheduled() ==> Count(s, ScheduledAt(k)) == Count(g.accepted, At(k)) {
      JoinedIsHeld(g.results, k);
      assert o.Scheduled() ==> Conserved(g, k);
    }
    JoinedIsHeld(g.results, None);
    CountAll(s, ScheduledAt(None));
    CountAll(g.accepted, At(None));
  }

  /** Merges the workers' statistics in the order they arrived. */
  method MergeResults(o: Options, results: seq<Worker>) returns (total: Totals)
    requires Accounted(o, results)
    ensures Accounts(total, Joined(results), o.window, o.history)
  {
    var stats := new Stats();
    NothingAccounts(o.window, o.history);
    for i := 0 to |results|
      invariant Accounts(stats.Value(), Joined(results[..i]), o.window, o.history)
    {
      MergeStep(o, stats.Value(), results, i);
      stats.Absorb(results[i].stats);
    }
    assert results[..|results|] == results;
    total := stats.Value();
  }

  lemma JoinedOneMore(results: seq<Worker>, i: nat)
    requires i < |results|
    ensures Joined(results[..i + 1]) == Joined(results[..i]) + results[i].events
  {
    assert results[..i + 1][..i] == results[..i];
  }

  lemma MergeStep(o: Options, t: Totals, results: seq<Worker>, i: nat)
    requires Accounted(o, results) && i < |results| && Accounts(t, Joined(results[..i]), o.window, o.history)
    ensures Sized(results[i].stats.timings) && Sized(t.timings)
    ensures Accounts(Plus(t, results[i].stats), Joined(results[..i + 1]), o.window, o.history)
  {
    JoinedOneMore(results, i);
    PlusAccounts(t, results[i].stats, Joined(results[..i]), results[i].events, o.window, o.history);
  }

  /** A histogram with the summary that the generator's own walk over the bins gives. */
  method Measure(h: Hist, rank: Ranks, ghost s: seq<nat>) returns (m: Measured)
    requires Samples(s) && h == Tally(s) && WithinCount(rank)
    ensures m.hist == h && Summarizes(h, rank, m.summary)
  {
    var recorder := new Recorder.Of(h, s);
    var summary := recorder.Summarize(rank);
    m := Measured(h, summary);
  }

  /** The result, the figures of each second, the measured interval and the recorded operations. */
  datatype Outcome =
    | Reported(result: Result, seconds: map<int, Second>, measured: int, events: seq<Completion>)
    | AccountingFailed

  /** Every figure is that of the operations themselves. */
  ghost predicate Tells(r: Result, s: seq<Completion>, late: seq<nat>) {
    && r.attempted == |s| && r.ok == Count(s, Succeeded) && r.unknown == Count(s, Unknown)
    && r.errors == Count(s, Failed) && r.networkAttempts == Tries(s)
    && r.success.hist == Tally(Times(s, Succeeded, Latency)) && r.all.hist == Tally(Times(s, Everything, Latency))
    && r.successExecution.hist == Tally(Times(s, Succeeded, Execution))
    && r.allExecution.hist == Tally(Times(s, Everything, Execution))
    && r.lateness.hist == Tally(Times(s, Everything, Lateness)) && r.scheduler.hist == Tally(late)
  }

  method MeasureTimes(
      h: Hist, rank: Ranks, ghost s: seq<Completion>, ghost p: Completion -> bool, ghost f: Completion -> nat)
    returns (m: Measured)
    requires h == Tally(Times(s, p, f)) && WithinCount(rank)
    ensures m.hist == h && Summarizes(h, rank, m.summary)
  {
    TimesAreSamples(s, p, f);
    m := Measure(h, rank, Times(s, p, f));
  }

  /** The result document, with a summary beside each histogram. */
  method Report(
      o: Options, counts: Counts, timings: Timings, scheduler: Hist, offered: nat, dropped: nat, inWindow: nat,
      rank: Ranks, ghost s: seq<Completion>, ghost late: seq<nat>)
    returns (r: Result)
    requires timings == Timed(s) && scheduler == Tally(late) && Samples(late) && WithinCount(rank)
    ensures r.contract == CONTRACT && r.schema == 3 && r.rate == Some(o.rate)
    ensures r.offered == offered && r.attempted == counts.attempted && r.notIssued == dropped
    ensures r.ok == counts.ok && r.inWindow == inWindow && r.unknown == counts.unknown && r.errors == counts.errors
    ensures r.networkAttempts == counts.attempts
    ensures r.success.hist == timings.latency && r.all.hist == timings.allLatency
    ensures r.successExecution.hist == timings.execution && r.allExecution.hist == timings.allExecution
    ensures r.lateness.hist == timings.lateness && r.scheduler.hist == scheduler
    ensures Summarized(r.success, rank) && Summarized(r.all, rank) && Summarized(r.successExecution, rank)
    ensures Summarized(r.allExecution, rank) && Summarized(r.lateness, rank) && Summarized(r.scheduler, rank)
  {
    var success := MeasureTimes(timings.latency, rank, s, Succeeded, Latency);
    var all := MeasureTimes(timings.allLatency, rank, s, Everything, Latency);
    var successExecution := MeasureTimes(timings.execution, rank, s, Succeeded, Execution);
    var allExecution := MeasureTimes(timings.allExecution, rank, s, Everything, Execution);
    var lateness := MeasureTimes(timings.lateness, rank, s, Everything, Lateness);
    var dispatch := Measure(scheduler, rank, late);
    r := Result(
      CONTRACT, 3, Some(o.rate), offered, counts.attempted, dropped, counts.ok, inWindow, counts.unknown, counts.errors,
      counts.attempts, success, all, successExecution, allExecution, lateness, dispatch);
  }

  ghost predicate Summarized(m: Measured, rank: Ranks) {
    Summarizes(m.hist, rank, m.summary)
  }

  lemma SixClaims(r: Result)
    requires r.schema == 3
    ensures Claims(r) ==
            [ Claim(r.success, r.ok), Claim(r.all, r.attempted), Claim(r.successExecution, r.ok),
              Claim(r.allExecution, r.attempted), Claim(r.lateness, r.attempted), Claim(r.scheduler, SchedulerCount(r)) ]
  {
  }

  lemma ClaimsHold(claims: seq<Claim>, rank: Ranks)
    requires |claims| == 6
    requires SoundClaim(claims[0], 3, rank) && SoundClaim(claims[1], 3, rank) && SoundClaim(claims[2], 3, rank)
    requires SoundClaim(claims[3], 3, rank) && SoundClaim(claims[4], 3, rank) && SoundClaim(claims[5], 3, rank)
    ensures forall i | 0 <= i < |claims| :: SoundClaim(claims[i], 3, rank)
  {
    SixHold(claims, (c: Claim) => SoundClaim(c, 3, rank));
  }

  lemma SixHold<T>(s: seq<T>, p: T -> bool)
    requires |s| == 6 && p(s[0]) && p(s[1]) && p(s[2]) && p(s[3]) && p(s[4]) && p(s[5])
    ensures forall i | 0 <= i < |s| :: p(s[i])
  {
  }

  /** A result of the generator's form is valid when its counts and histograms hold. */
  lemma ReportValidates(r: Result, rank: Ranks)
    requires r.contract == CONTRACT && r.schema == 3 && ValidRate(r.rate) && CountsHold(r)
    requires SoundClaim(Claim(r.success, r.ok), 3, rank) && SoundClaim(Claim(r.all, r.attempted), 3, rank)
    requires SoundClaim(Claim(r.successExecution, r.ok), 3, rank)
    requires SoundClaim(Claim(r.allExecution, r.attempted), 3, rank)
    requires SoundClaim(Claim(r.lateness, r.attempted), 3, rank)
    requires SoundClaim(Claim(r.scheduler, SchedulerCount(r)), 3, rank)
    ensures Validates(r, rank)
  {
    SixClaims(r);
    ClaimsHold(Claims(r), rank);
  }

  /** What is written about any operations passes the validator, if the counts of arrivals agree. */
  method Write(
      o: Options, total: Totals, scheduler: Hist, offered: nat, dropped: nat, inWindow: nat, rank: Ranks,
      ghost s: seq<Completion>, ghost late: seq<nat>)
    returns (r: Result)
    requires Accounts(total, s, o.window, o.history) && scheduler == Tally(late) && Samples(late) && WithinCount(rank)
    requires o.rate >= 0.0 && |late| == (if o.Scheduled() then offered else 0)
    requires offered == |s| + dropped && inWindow <= total.counts.ok
    ensures Validates(r, rank) && Tells(r, s, late)
    ensures r.offered == offered && r.notIssued == dropped && r.inWindow == inWindow
  {
    r := Report(o, total.counts, total.timings, scheduler, offered, dropped, inWindow, rank, s, late);
    AccountValidates(s, o.window);
    TallyPassesValidation(late);
    ReportValidates(r, rank);
  }

  /**
  The end of a run, once every worker has stopped: the accounting error is never reported, the
  result passes every check of the validator, summaries included, and the operation cap held.
  */
  method Conclude(
      o: Options, g: Generator, wall: int, rank: Ranks, ghost run: seq<Generator>, ghost actions: seq<Action>)
    returns (r: Outcome)
    requires IsRun(o, run, actions) && g == run[|actions|] && g.workers == [] && WithinCount(rank)
    ensures r.Reported? && Validates(r.result, rank)
    ensures Tells(r.result, Joined(g.results), g.late) && SecondsHold(r.seconds, Joined(g.results))
    ensures r.result.notIssued == g.dropped && r.result.offered == |Joined(g.results)| + g.dropped
    ensures r.result.inWindow ==
            if o.operations > 0 && wall < o.window then Count(Joined(g.results), Succeeded)
            else Count(Joined(g.results), InWindow(o.window))
    ensures r.measured == if o.operations > 0 && wall < o.window then wall else o.window
    ensures r.events == if o.history then Joined(g.results) else []
    ensures o.operations > 0 ==> r.result.offered <= o.operations
  {
    RunIsSafe(o, run, actions, |actions|);
    AcceptedOnce(o, g);
    RateIsKept(o, run, actions);
    ClassesPartition(Joined(g.results), o.window);
    var total := MergeResults(o, g.results);
    var counts := total.counts;
    var offered, inWindow, measured := g.offered, counts.inWindow, o.window;
    if !o.Scheduled() {
      offered := counts.attempted;
    }
    if o.operations > 0 && wall < o.window {
      inWindow, measured := counts.ok, wall;
    }
    if offered != counts.attempted + g.dropped {
      return AccountingFailed;
    }
    var result := Write(o, total, g.scheduler, offered, g.dropped, inWindow, rank, Joined(g.results), g.late);
    r := Reported(result, total.seconds, measured, total.events);
  }

  lemma RateIsKept(o: Options, run: seq<Generator>, actions: seq<Action>)
    requires IsRun(o, run, actions)
    ensures o.rate >= 0.0
  {
    assert Starts(o, run[0]);
  }

  /** Generator and validator agree: the result of every finished run draws no complaint. */
  method RunIsAccepted(
      o: Options, g: Generator, wall: int, rank: Ranks, ghost run: seq<Generator>, ghost actions: seq<Action>)
    returns (r: Outcome, errors: seq<Complaint>)
    requires IsRun(o, run, actions) && g == run[|actions|] && g.workers == [] && WithinCount(rank)
    ensures r.Reported? && errors == []
  {
    r := Conclude(o, g, wall, rank, run, actions);
    errors := ValidateResult(r.result, rank);
  }
}
