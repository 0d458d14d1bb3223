/**
The bounded operation timelines of a diagnostic node, and the verifier that reads them.

The node samples one admitted operation in 64, follows it through its stages, and keeps a
reservoir of the completed ones. `Step` is the effect of one call as a function, which the
methods of the class refine; `Accepts` is what the verifier of the published status demands.
*/
module Timelines {
  import opened Kv
  import opened Counting
  import Durable

  const SAMPLE_EVERY := 64
  const RETAINED := 256
  const IN_FLIGHT := 256
  const COMMIT_MARKS := 8192

  datatype Boundary = EngineApplyEffect | StateMachineApplyCallback

  datatype Mark = Mark(at: int, boundary: Boundary)

  /** A sampled operation on its way; times are in nanoseconds. */
  datatype Flight = Flight(
    client: string, sequence: nat, ordinal: nat, ingress: int, admitted: int,
    submitted: Option<int>, index: Option<nat>, commit: Option<Mark>,
    dispatched: Option<int>, started: Option<int>, durable: Option<int>)

  /** A completed operation: its eight stages in nanoseconds since ingress. */
  datatype Timeline = Timeline(ordinal: nat, index: nat, boundary: Boundary, points: seq<nat>)

  datatype Counters = Counters(
    seen: nat, sampled: nat, completed: nat, abandoned: nat, skipped: nat, discarded: nat, evicted: nat)

  datatype Node = Node(counters: Counters, inFlight: seq<Flight>, marks: map<nat, Mark>, retained: seq<Timeline>)

  datatype Stage = Started | Durable

  /** The slot that the reservoir draws, from the ordinal and the number completed. */
  type Mix = (nat, nat) -> nat

  datatype Call =
    | Admitting(command: Command, ingress: int, now: int)
    | Submitting(commands: seq<Command>, now: int)
    | Observing(index: nat, boundary: Boundary, now: int)
    | Dispatching(entries: seq<Durable.Applied>, now: int)
    | Marking(entries: seq<Durable.Applied>, stage: Stage, now: int)
    | Completing(command: Command, now: int)
    | Abandoning(command: Command)

  // ---------- Finding an operation ----------

  predicate Matches(f: Flight, c: Command) {
    f.sequence == c.sequence && f.client == c.client
  }

  /** The first operation in flight from `i` on that satisfies a condition, or the length. */
  function FirstFrom(fs: seq<Flight>, p: Flight -> bool, i: nat): (k: nat)
    requires i <= |fs|
    ensures i <= k <= |fs| && (forall j | i <= j < k :: !p(fs[j])) && (k < |fs| ==> p(fs[k]))
    decreases |fs| - i
  {
    if i == |fs| || p(fs[i]) then i else FirstFrom(fs, p, i + 1)
  }

  function Find(fs: seq<Flight>, c: Command): (k: nat)
    ensures k <= |fs| && (forall j | 0 <= j < k :: !Matches(fs[j], c)) && (k < |fs| ==> Matches(fs[k], c))
  {
    FirstFrom(fs, (f: Flight) => Matches(f, c), 0)
  }

  function FindIndex(fs: seq<Flight>, index: nat): (k: nat)
    ensures k <= |fs| && (forall j | 0 <= j < k :: fs[j].index != Some(index)) && (k < |fs| ==> fs[k].index == Some(index))
  {
    FirstFrom(fs, (f: Flight) => f.index == Some(index), 0)
  }

  function OrElse(o: Option<int>, now: int): Option<int> {
    if o.Some? then o else Some(now)
  }

  // ---------- The effect of each call ----------

  function Admit(n: Node, c: Command, ingress: int, now: int): Node {
    var k := n.counters.(seen := n.counters.seen + 1);
    if (k.seen - 1) % SAMPLE_EVERY != 0 then n.(counters := k)
    else if |n.inFlight| >= IN_FLIGHT then n.(counters := k.(sampled := k.sampled + 1, skipped := k.skipped + 1))
    else n.(counters := k.(sampled := k.sampled + 1), inFlight := n.inFlight + [NewFlight(c, k.seen, ingress, now)])
  }

  function NewFlight(c: Command, ordinal: nat, ingress: int, now: int): Flight {
    Flight(c.client, c.sequence, ordinal, ingress, now, None, None, None, None, None, None)
  }

  function SubmitOne(fs: seq<Flight>, c: Command, now: int): seq<Flight> {
    var k := Find(fs, c);
    if k == |fs| then fs else fs[k := fs[k].(submitted := OrElse(fs[k].submitted, now))]
  }

  function Submit(fs: seq<Flight>, cs: seq<Command>, now: int): seq<Flight> {
    if cs == [] then fs else SubmitOne(Submit(fs, cs[..|cs| - 1], now), cs[|cs| - 1], now)
  }

  lemma {:induction false} LeastExists(s: set<nat>) returns (k: nat)
    requires s != {}
    ensures k in s && forall j | j in s :: k <= j
    decreases |s|
  {
    var x :| x in s;
    if s == {x} {
      k := x;
    } else {
      var rest := LeastExists(s - {x});
      k := if x < rest then x else rest;
      forall j | j in s ensures k <= j {
        assert j == x || j in s - {x};
      }
    }
  }

  lemma LeastToFind(s: set<nat>)
    requires s != {}
    ensures exists k :: k in s && forall j | j in s :: k <= j
  {
    var k := LeastExists(s);
  }

  function Least(s: set<nat>): (k: nat)
    requires s != {}
    ensures k in s && forall j | j in s :: k <= j
  {
    LeastToFind(s);
    var k :| k in s && forall j | j in s :: k <= j;
    k
  }

  /** A new mark is kept unless the index already has one; the lowest gives way when full. */
  function Observe(n: Node, index: nat, boundary: Boundary, now: int): Node {
    Evict(n.(marks := WithMark(n.marks, index, boundary, now)))
  }

  function WithMark(marks: map<nat, Mark>, index: nat, boundary: Boundary, now: int): map<nat, Mark> {
    if index in marks then marks else marks[index := Mark(now, boundary)]
  }

  function Evict(n: Node): Node
    decreases |n.marks|
  {
    if |n.marks| <= COMMIT_MARKS then n
    else
      var first := Least(n.marks.Keys);
      assert n.marks.Keys == (n.marks - {first}).Keys + {first};
      Evict(n.(marks := n.marks - {first}, counters := n.counters.(evicted := n.counters.evicted + 1)))
  }

  function DispatchOne(n: Node, entry: Durable.Applied, now: int): Node {
    var commit := if entry.index in n.marks then Some(n.marks[entry.index]) else None;
    var fs := n.inFlight;
    var k := if entry.command.None? then |fs| else Find(fs, entry.command.value);
    n.(
      marks := n.marks - {entry.index},
      inFlight :=
        if k == |fs| || fs[k].index.Some? then fs
        else fs[k := fs[k].(index := Some(entry.index), commit := commit, dispatched := Some(now))])
  }

  function Dispatch(n: Node, entries: seq<Durable.Applied>, now: int): Node {
    if entries == [] then n else DispatchOne(Dispatch(n, entries[..|entries| - 1], now), entries[|entries| - 1], now)
  }

  function MarkOne(fs: seq<Flight>, entry: Durable.Applied, stage: Stage, now: int): seq<Flight> {
    var k := FindIndex(fs, entry.index);
    if k == |fs| then fs
    else if stage.Started? then fs[k := fs[k].(started := OrElse(fs[k].started, now))]
    else fs[k := fs[k].(durable := OrElse(fs[k].durable, now))]
  }

  function MarkAll(fs: seq<Flight>, entries: seq<Durable.Applied>, stage: Stage, now: int): seq<Flight> {
    if entries == [] then fs
    else MarkOne(MarkAll(fs, entries[..|entries| - 1], stage, now), entries[|entries| - 1], stage, now)
  }

  predicate Whole(f: Flight) {
    f.submitted.Some? && f.index.Some? && f.commit.Some? && f.dispatched.Some? && f.started.Some? && f.durable.Some?
  }

  function Stages(f: Flight, now: int): (t: seq<int>)
    requires Whole(f)
  {
    [ f.ingress, f.admitted, f.submitted.value, f.commit.value.at, f.dispatched.value, f.started.value, f.durable.value,
      now ]
  }

  predicate Ordered(t: seq<int>) {
    forall i | 0 <= i < |t| - 1 :: t[i] <= t[i + 1]
  }

  lemma {:induction false} OrderedFrom(t: seq<int>, i: nat, j: nat)
    requires Ordered(t) && i <= j < |t|
    ensures t[i] <= t[j]
  {
    if i < j {
      OrderedFrom(t, i, j - 1);
      var k := j - 1;
      assert t[k] <= t[k + 1];
    }
  }

  /** The published timeline, unless a stage is missing or they are out of order. */
  function Complete(f: Flight, now: int): Option<Timeline> {
    if !Whole(f) then None
    else
      var stages := Stages(f, now);
      if !Ordered(stages) then None
      else Some(Timeline(f.ordinal, f.index.value, f.commit.value.boundary, Elapsed(stages)))
  }

  function Elapsed(stages: seq<int>): seq<nat>
    requires |stages| == 8
  {
    seq(8, i requires 0 <= i < 8 => Since(stages[0], stages[i]))
  }

  function Since(start: int, end: int): nat {
    if end < start then 0 else end - start
  }

  function Retain(n: Node, t: Timeline, mix: Mix): Node {
    var done := n.counters.completed + 1;
    var slot := mix(t.ordinal, done) % done;
    n.(
      counters := n.counters.(completed := done),
      retained :=
        if |n.retained| < RETAINED then n.retained + [t]
        else if slot < |n.retained| && slot < RETAINED then n.retained[slot := t]
        else n.retained)
  }

  function Finish(n: Node, c: Command, now: int, mix: Mix): Node {
    var fs := n.inFlight;
    var k := Find(fs, c);
    if k == |fs| then n
    else
      var left := n.(inFlight := fs[..k] + fs[k + 1..]);
      match Complete(fs[k], now)
      case None => left.(counters := left.counters.(discarded := left.counters.discarded + 1))
      case Some(t) => Retain(left, t, mix)
  }

  function Without(fs: seq<Flight>, c: Command): (gs: seq<Flight>)
    ensures |gs| <= |fs|
  {
    if fs == [] then []
    else Without(fs[..|fs| - 1], c) + if Matches(fs[|fs| - 1], c) then [] else [fs[|fs| - 1]]
  }

  function Abandon(n: Node, c: Command): Node {
    var fs := Without(n.inFlight, c);
    n.(
      inFlight := fs,
      counters := if |fs| != |n.inFlight| then n.counters.(abandoned := n.counters.abandoned + 1) else n.counters)
  }

  function Called(n: Node, call: Call, mix: Mix): Node {
    match call
    case Admitting(c, ingress, now) => Admit(n, c, ingress, now)
    case Submitting(cs, now) => n.(inFlight := Submit(n.inFlight, cs, now))
    case Observing(index, boundary, now) => Observe(n, index, boundary, now)
    case Dispatching(entries, now) => Dispatch(n, entries, now)
    case Marking(entries, stage, now) => n.(inFlight := MarkAll(n.inFlight, entries, stage, now))
    case Completing(c, now) => Finish(n, c, now, mix)
    case Abandoning(c) => Abandon(n, c)
  }

  const START := Node(Counters(0, 0, 0, 0, 0, 0, 0), [], map[], [])

  ghost function Run(calls: seq<Call>, mix: Mix): Node {
    if calls == [] then START else Called(Run(calls[..|calls| - 1], mix), calls[|calls| - 1], mix)
  }

  /** An identity is admitted only while it is not in flight; commands have nonzero indexes. */
  ghost predicate Allowed(n: Node, call: Call) {
    && (call.Admitting? ==> forall i | 0 <= i < |n.inFlight| :: !Matches(n.inFlight[i], call.command))
    && (call.Dispatching? ==>
          forall i | 0 <= i < |call.entries| :: call.entries[i].command.Some? ==> call.entries[i].index != 0)
  }

  ghost predicate Disciplined(calls: seq<Call>, mix: Mix) {
    forall i: nat {:trigger AllowedAt(calls, mix, i)} | i < |calls| :: AllowedAt(calls, mix, i)
  }

  ghost predicate AllowedAt(calls: seq<Call>, mix: Mix, i: nat)
    requires i < |calls|
  {
    Allowed(Run(calls[..i], mix), calls[i])
  }

  lemma DisciplinedBefore(calls: seq<Call>, mix: Mix, k: nat)
    requires Disciplined(calls, mix) && k <= |calls|
    ensures Disciplined(calls[..k], mix)
  {
    forall i: nat | i < k ensures AllowedAt(calls[..k], mix, i) {
      assert calls[..k][..i] == calls[..i];
      assert AllowedAt(calls, mix, i);
    }
  }

  // ---------- The invariant ----------

  predicate SamplePoint(ordinal: nat, seen: nat) {
    1 <= ordinal <= seen && (ordinal - 1) % SAMPLE_EVERY == 0
  }

  function Expected(seen: nat): nat {
    if seen == 0 then 0 else 1 + (seen - 1) / SAMPLE_EVERY
  }

  ghost predicate Balanced(k: Counters, inFlight: nat) {
    && k.sampled == Expected(k.seen)
    && k.sampled == k.completed + k.abandoned + k.skipped + k.discarded + inFlight
  }

  ghost predicate SoundFlight(f: Flight, seen: nat) {
    SamplePoint(f.ordinal, seen) && f.index != Some(0)
  }

  ghost predicate SoundTimeline(t: Timeline, seen: nat) {
    SamplePoint(t.ordinal, seen) && t.index != 0 && |t.points| == 8 && t.points[0] == 0 && Ordered(t.points)
  }

  ghost predicate Distinct(fs: seq<Flight>) {
    forall i, j | 0 <= i < j < |fs| :: fs[i].ordinal != fs[j].ordinal && !SameIdentity(fs[i], fs[j])
  }

  predicate SameIdentity(f: Flight, g: Flight) {
    f.client == g.client && f.sequence == g.sequence
  }

  ghost predicate FlightsSound(fs: seq<Flight>, seen: nat) {
    (forall i | 0 <= i < |fs| :: SoundFlight(fs[i], seen)) && Distinct(fs)
  }

  ghost predicate RetainedSound(ts: seq<Timeline>, seen: nat) {
    && (forall i | 0 <= i < |ts| :: SoundTimeline(ts[i], seen))
    && forall i, j | 0 <= i < j < |ts| :: ts[i].ordinal != ts[j].ordinal
  }

  ghost predicate Apart(fs: seq<Flight>, ts: seq<Timeline>) {
    forall i, j | 0 <= i < |fs| && 0 <= j < |ts| :: fs[i].ordinal != ts[j].ordinal
  }

  ghost predicate Inv(n: Node) {
    && Balanced(n.counters, |n.inFlight|)
    && |n.inFlight| <= IN_FLIGHT && |n.marks| <= COMMIT_MARKS
    && |n.retained| == (if n.counters.completed < RETAINED then n.counters.completed else RETAINED)
    && FlightsSound(n.inFlight, n.counters.seen) && RetainedSound(n.retained, n.counters.seen)
    && Apart(n.inFlight, n.retained)
  }

  /** `gs` holds the same operations as `fs`, perhaps further along. */
  ghost predicate Advances(fs: seq<Flight>, gs: seq<Flight>) {
    && |fs| == |gs|
    && forall i | 0 <= i < |fs| ::
         fs[i].ordinal == gs[i].ordinal && SameIdentity(fs[i], gs[i]) && (fs[i].index != Some(0) ==> gs[i].index != Some(0))
  }

  lemma AdvanceKeeps(n: Node, gs: seq<Flight>)
    requires Inv(n) && Advances(n.inFlight, gs)
    ensures Inv(n.(inFlight := gs))
  {
  }

  lemma {:induction false} SubmitAdvances(fs: seq<Flight>, cs: seq<Command>, now: int)
    ensures Advances(fs, Submit(fs, cs, now))
  {
    if cs != [] {
      SubmitAdvances(fs, cs[..|cs| - 1], now);
    }
  }

  lemma {:induction false} MarkAdvances(fs: seq<Flight>, entries: seq<Durable.Applied>, stage: Stage, now: int)
    ensures Advances(fs, MarkAll(fs, entries, stage, now))
  {
    if entries != [] {
      MarkAdvances(fs, entries[..|entries| - 1], stage, now);
    }
  }

  lemma FewerKeys(m: map<nat, Mark>, k: nat)
    ensures |m - {k}| <= |m| && (k in m ==> |m - {k}| == |m| - 1)
  {
    if k in m {
      assert m.Keys == (m - {k}).Keys + {k};
      assert |m.Keys| == |(m - {k}).Keys| + 1;
    } else {
      assert m - {k} == m;
    }
  }

  lemma {:induction false} DispatchKeeps(n: Node, entries: seq<Durable.Applied>, now: int)
    requires forall i | 0 <= i < |entries| :: entries[i].command.Some? ==> entries[i].index != 0
    ensures var m := Dispatch(n, entries, now);
            Advances(n.inFlight, m.inFlight) && |m.marks| <= |n.marks| && m.counters == n.counters && m.retained == n.retained
  {
    if entries != [] {
      DispatchKeeps(n, entries[..|entries| - 1], now);
      DispatchOneKeeps(Dispatch(n, entries[..|entries| - 1], now), entries[|entries| - 1], now);
    }
  }

  lemma DispatchOneKeeps(n: Node, entry: Durable.Applied, now: int)
    requires entry.command.Some? ==> entry.index != 0
    ensures var m := DispatchOne(n, entry, now);
            Advances(n.inFlight, m.inFlight) && |m.marks| <= |n.marks| && m.counters == n.counters && m.retained == n.retained
  {
    FewerKeys(n.marks, entry.index);
  }

  lemma {:induction false} EvictKeeps(n: Node)
    ensures var m := Evict(n);
            && m == n.(marks := m.marks, counters := n.counters.(evicted := m.counters.evicted))
            && |m.marks| <= COMMIT_MARKS
    decreases |n.marks|
  {
    if |n.marks| > COMMIT_MARKS {
      var first := Least(n.marks.Keys);
      FewerKeys(n.marks, first);
      EvictKeeps(n.(marks := n.marks - {first}, counters := n.counters.(evicted := n.counters.evicted + 1)));
    }
  }

  lemma ObserveKeeps(n: Node, index: nat, boundary: Boundary, now: int)
    requires Inv(n)
    ensures Inv(Observe(n, index, boundary, now))
  {
    EvictKeeps(n.(marks := WithMark(n.marks, index, boundary, now)));
  }

  /** When there are too many marks, the lowest go: the highest indexes keep theirs, unchanged. */
  lemma {:induction false} EvictTakesLowest(n: Node)
    ensures var m := Evict(n);
            && (forall x <- m.marks :: x in n.marks && m.marks[x] == n.marks[x])
            && (forall x <- n.marks, y <- m.marks :: x !in m.marks ==> x < y)
            && |m.marks| == (if |n.marks| <= COMMIT_MARKS then |n.marks| else COMMIT_MARKS)
            && m.counters.evicted == n.counters.evicted + |n.marks| - |m.marks|
    decreases |n.marks|
  {
    if |n.marks| > COMMIT_MARKS {
      var first := Least(n.marks.Keys);
      FewerKeys(n.marks, first);
      EvictTakesLowest(n.(marks := n.marks - {first}, counters := n.counters.(evicted := n.counters.evicted + 1)));
    }
  }

  /** One operation in 64 is a sample point. */
  lemma SampledNext(seen: nat)
    ensures Expected(seen + 1) == Expected(seen) + if seen % SAMPLE_EVERY == 0 then 1 else 0
  {
  }

  lemma AdmitKeeps(n: Node, c: Command, ingress: int, now: int)
    requires Inv(n) && Allowed(n, Admitting(c, ingress, now))
    ensures Inv(Admit(n, c, ingress, now))
  {
    SampledNext(n.counters.seen);
  }

  lemma RemoveKeeps(fs: seq<Flight>, k: nat, seen: nat)
    requires k < |fs| && FlightsSound(fs, seen)
    ensures FlightsSound(fs[..k] + fs[k + 1..], seen)
  {
  }

  lemma CompletedIsSound(f: Flight, now: int, seen: nat)
    requires SoundFlight(f, seen) && Complete(f, now).Some?
    ensures SoundTimeline(Complete(f, now).value, seen) && Complete(f, now).value.ordinal == f.ordinal
  {
    var stages := Stages(f, now);
    forall i | 0 <= i < 7 ensures Elapsed(stages)[i] <= Elapsed(stages)[i + 1] {
      OrderedFrom(stages, 0, i);
      assert stages[i] <= stages[i + 1];
    }
  }

  /** A timeline is published exactly for whole operations in order, and gives each stage since ingress. */
  lemma CompleteMeans(f: Flight, now: int)
    ensures Complete(f, now).Some? <==>
            && Whole(f) && f.ingress <= f.admitted <= f.submitted.value <= f.commit.value.at <= f.dispatched.value
            && f.dispatched.value <= f.started.value <= f.durable.value <= now
    ensures Complete(f, now).Some? ==>
              var t := Complete(f, now).value;
              && t.ordinal == f.ordinal && t.index == f.index.value && t.boundary == f.commit.value.boundary
              && t.points ==
                 [ 0, f.admitted - f.ingress, f.submitted.value - f.ingress, f.commit.value.at - f.ingress,
                   f.dispatched.value - f.ingress, f.started.value - f.ingress, f.durable.value - f.ingress,
                   now - f.ingress ]
  {
    if Whole(f) {
      var s := Stages(f, now);
      assert Ordered(s) <==>
             s[0] <= s[1] && s[1] <= s[2] && s[2] <= s[3] && s[3] <= s[4] && s[4] <= s[5] && s[5] <= s[6] && s[6] <= s[7];
    }
  }

  /** The reservoir takes the new timeline while there is room or when the slot falls into it, and loses one at most. */
  lemma RetainTakes(n: Node, t: Timeline, mix: Mix)
    requires |n.retained| <= RETAINED && t !in n.retained
    ensures var after, done := Retain(n, t, mix), n.counters.completed + 1;
            var slot := mix(t.ordinal, done) % done;
            && after == n.(counters := n.counters.(completed := done), retained := after.retained)
            && |n.retained| <= |after.retained|
            && (t in after.retained <==> |n.retained| < RETAINED || slot < RETAINED)
            && forall i | 0 <= i < |n.retained| ::
                 after.retained[i] == n.retained[i] || (|n.retained| == RETAINED && i == slot && after.retained[i] == t)
  {
    var after, done := Retain(n, t, mix), n.counters.completed + 1;
    var slot := mix(t.ordinal, done) % done;
    if |n.retained| < RETAINED {
      assert after.retained[|n.retained|] == t;
    } else if slot < RETAINED {
      assert after.retained[slot] == t;
    }
  }

  lemma RetainKeeps(n: Node, t: Timeline, mix: Mix)
    requires Inv(n.(counters := n.counters.(discarded := n.counters.discarded + 1)))
    requires SoundTimeline(t, n.counters.seen)
    requires forall i | 0 <= i < |n.inFlight| :: n.inFlight[i].ordinal != t.ordinal
    requires forall i | 0 <= i < |n.retained| :: n.retained[i].ordinal != t.ordinal
    ensures Inv(Retain(n, t, mix))
  {
  }

  lemma FinishKeeps(n: Node, c: Command, now: int, mix: Mix)
    requires Inv(n)
    ensures Inv(Finish(n, c, now, mix))
  {
    var k := Find(n.inFlight, c);
    if k < |n.inFlight| {
      var f := n.inFlight[k];
      RemoveKeeps(n.inFlight, k, n.counters.seen);
      if Complete(f, now).Some? {
        CompletedIsSound(f, now, n.counters.seen);
        RetainKeeps(n.(inFlight := n.inFlight[..k] + n.inFlight[k + 1..]), Complete(f, now).value, mix);
      }
    }
  }

  ghost function OfCommand(c: Command): Flight -> bool {
    (f: Flight) => Matches(f, c)
  }

  /** How many operations in flight have the identity of a command. */
  ghost function Matching(fs: seq<Flight>, c: Command): nat {
    Count(fs, OfCommand(c))
  }

  lemma {:induction false} WithoutCounts(fs: seq<Flight>, c: Command)
    ensures |Without(fs, c)| == |fs| - Matching(fs, c)
  {
    if fs != [] {
      WithoutCounts(fs[..|fs| - 1], c);
    }
  }

  lemma {:induction false} WithoutSound(fs: seq<Flight>, c: Command, seen: nat)
    requires FlightsSound(fs, seen)
    ensures FlightsSound(Without(fs, c), seen) && Matching(fs, c) <= 1
    ensures forall i | 0 <= i < |Without(fs, c)| :: Without(fs, c)[i] in fs
    ensures (exists i :: 0 <= i < |fs| && Matches(fs[i], c)) <==> Matching(fs, c) == 1
  {
    if fs != [] {
      var last := fs[|fs| - 1];
      WithoutSound(fs[..|fs| - 1], c, seen);
    }
  }

  lemma AbandonKeeps(n: Node, c: Command)
    requires Inv(n)
    ensures Inv(Abandon(n, c))
  {
    WithoutSound(n.inFlight, c, n.counters.seen);
    WithoutCounts(n.inFlight, c);
  }

  /**
  Abandoning counts one operation however many it removes: the lifecycle balance survives
  exactly when at most one operation in flight has the identity.
  */
  lemma AbandonBalances(n: Node, c: Command)
    requires Balanced(n.counters, |n.inFlight|)
    ensures Balanced(Abandon(n, c).counters, |Abandon(n, c).inFlight|) <==> Matching(n.inFlight, c) <= 1
  {
    WithoutCounts(n.inFlight, c);
  }

  lemma StepKeeps(n: Node, call: Call, mix: Mix)
    requires Inv(n) && Allowed(n, call)
    ensures Inv(Called(n, call, mix))
  {
    match call
    case Admitting(c, ingress, now) => AdmitKeeps(n, c, ingress, now);
    case Submitting(cs, now) =>
      SubmitAdvances(n.inFlight, cs, now);
      AdvanceKeeps(n, Submit(n.inFlight, cs, now));
    case Observing(index, boundary, now) => ObserveKeeps(n, index, boundary, now);
    case Dispatching(entries, now) =>
      DispatchKeeps(n, entries, now);
      AdvanceKeeps(n, Dispatch(n, entries, now).inFlight);
    case Marking(entries, stage, now) =>
      MarkAdvances(n.inFlight, entries, stage, now);
      AdvanceKeeps(n, MarkAll(n.inFlight, entries, stage, now));
    case Completing(c, now) => FinishKeeps(n, c, now, mix);
    case Abandoning(c) => AbandonKeeps(n, c);
  }

  lemma {:induction false} RunKeeps(calls: seq<Call>, mix: Mix)
    requires Disciplined(calls, mix)
    ensures Inv(Run(calls, mix))
  {
    if calls != [] {
      var before := calls[..|calls| - 1];
      DisciplinedBefore(calls, mix, |calls| - 1);
      RunKeeps(before, mix);
      assert AllowedAt(calls, mix, |calls| - 1);
      StepKeeps(Run(before, mix), calls[|calls| - 1], mix);
    }
  }

  // ---------- The published status and its verifier ----------

  datatype Status = Status(
    sampleEvery: nat, retainedLimit: nat, inFlightLimit: nat, commitMarkLimit: nat, counters: Counters,
    inFlight: nat, commitMarks: nat, retained: seq<Timeline>)

  function Insert(t: Timeline, ts: seq<Timeline>): seq<Timeline> {
    if ts == [] || t.ordinal <= ts[0].ordinal then [t] + ts else [ts[0]] + Insert(t, ts[1..])
  }

  function SortByOrdinal(ts: seq<Timeline>): seq<Timeline> {
    if ts == [] then [] else Insert(ts[0], SortByOrdinal(ts[1..]))
  }

  function Publish(n: Node): Status {
    Status(SAMPLE_EVERY, RETAINED, IN_FLIGHT, COMMIT_MARKS, n.counters, |n.inFlight|, |n.marks|, SortByOrdinal(n.retained))
  }

  ghost predicate Accepts(s: Status) {
    && s.sampleEvery != 0 && s.retainedLimit != 0 && s.inFlightLimit != 0 && s.commitMarkLimit != 0
    && var k := s.counters;
    && k.sampled == (if k.seen == 0 then 0 else 1 + (k.seen - 1) / s.sampleEvery)
    && k.sampled == k.completed + k.abandoned + k.skipped + k.discarded + s.inFlight
    && s.inFlight <= s.inFlightLimit && s.commitMarks <= s.commitMarkLimit
    && |s.retained| == (if k.completed < s.retainedLimit then k.completed else s.retainedLimit)
    && (forall i | 0 <= i < |s.retained| :: AcceptsTimeline(s.retained[i], k.seen, s.sampleEvery))
    && (forall i, j | 0 <= i < j < |s.retained| :: s.retained[i].ordinal != s.retained[j].ordinal)
  }

  predicate AcceptsTimeline(t: Timeline, seen: nat, every: nat) {
    && every != 0 && t.ordinal != 0 && t.ordinal <= seen && (t.ordinal - 1) % every == 0 && t.index != 0
    && |t.points| == 8 && t.points[0] == 0 && Ordered(t.points)
  }

  ghost predicate Rising(ts: seq<Timeline>) {
    forall i, j | 0 <= i < j < |ts| :: ts[i].ordinal < ts[j].ordinal
  }

  lemma {:induction false} InsertHolds(t: Timeline, ts: seq<Timeline>)
    ensures multiset(Insert(t, ts)) == multiset{t} + multiset(ts)
  {
    if ts != [] && t.ordinal > ts[0].ordinal {
      InsertHolds(t, ts[1..]);
      assert ts == [ts[0]] + ts[1..];
    }
  }

  lemma {:induction false} InsertRises(t: Timeline, ts: seq<Timeline>)
    requires Rising(ts) && forall i | 0 <= i < |ts| :: ts[i].ordinal != t.ordinal
    ensures Rising(Insert(t, ts))
  {
    if ts != [] && t.ordinal > ts[0].ordinal {
      var rest := Insert(t, ts[1..]);
      InsertRises(t, ts[1..]);
      InsertHolds(t, ts[1..]);
      forall i | 0 <= i < |rest| ensures ts[0].ordinal < rest[i].ordinal {
        assert rest[i] in multiset(rest);
      }
      PrependRises(ts[0], rest);
    }
  }

  lemma PrependRises(t: Timeline, ts: seq<Timeline>)
    requires Rising(ts) && forall i | 0 <= i < |ts| :: t.ordinal < ts[i].ordinal
    ensures Rising([t] + ts)
  {
  }

  /** The published timelines are the retained ones, in rising order of ordinal. */
  lemma {:induction false} SortRises(ts: seq<Timeline>)
    requires forall i, j | 0 <= i < j < |ts| :: ts[i].ordinal != ts[j].ordinal
    ensures Rising(SortByOrdinal(ts)) && multiset(SortByOrdinal(ts)) == multiset(ts)
  {
    if ts != [] {
      SortRises(ts[1..]);
      var rest := SortByOrdinal(ts[1..]);
      forall i | 0 <= i < |rest| ensures rest[i].ordinal != ts[0].ordinal {
        assert rest[i] in multiset(rest);
      }
      InsertRises(ts[0], rest);
      InsertHolds(ts[0], rest);
      assert ts == [ts[0]] + ts[1..];
    }
  }

  /** What a node publishes passes every check as long as its invariant holds. */
  lemma InvIsAccepted(n: Node)
    requires Inv(n)
    ensures Accepts(Publish(n))
  {
    var ts := SortByOrdinal(n.retained);
    SortRises(n.retained);
    assert |multiset(ts)| == |multiset(n.retained)|;
    forall i | 0 <= i < |ts| ensures AcceptsTimeline(ts[i], n.counters.seen, SAMPLE_EVERY) {
      assert ts[i] in multiset(ts);
    }
  }

  /** What a node publishes after any disciplined sequence of calls passes every check. */
  lemma PublishedIsAccepted(calls: seq<Call>, mix: Mix)
    requires Disciplined(calls, mix)
    ensures Accepts(Publish(Run(calls, mix)))
  {
    RunKeeps(calls, mix);
    InvIsAccepted(Run(calls, mix));
  }

  /** The verifier of a published status accepts exactly what it should. */
  method Verify(s: Status) returns (accepted: bool)
    ensures accepted <==> Accepts(s)
  {
    if s.sampleEvery == 0 || s.retainedLimit == 0 || s.inFlightLimit == 0 || s.commitMarkLimit == 0 {
      return false;
    }
    var k := s.counters;
    var expected := if k.seen == 0 then 0 else 1 + (k.seen - 1) / s.sampleEvery;
    if k.sampled != expected || k.sampled != k.completed + k.abandoned + k.skipped + k.discarded + s.inFlight {
      return false;
    }
    if s.inFlight > s.inFlightLimit || s.commitMarks > s.commitMarkLimit || |s.retained| > s.retainedLimit {
      return false;
    }
    if |s.retained| != (if k.completed < s.retainedLimit then k.completed else s.retainedLimit) {
      return false;
    }
    var ordinals: set<nat> := {};
    for i := 0 to |s.retained|
      invariant ordinals == set j | 0 <= j < i :: s.retained[j].ordinal
      invariant forall j | 0 <= j < i :: AcceptsTimeline(s.retained[j], k.seen, s.sampleEvery)
      invariant forall j, l | 0 <= j < l < i :: s.retained[j].ordinal != s.retained[l].ordinal
    {
      var t := s.retained[i];
      if !AcceptsTimeline(t, k.seen, s.sampleEvery) || t.ordinal in ordinals {
        return false;
      }
      ordinals := ordinals + {t.ordinal};
    }
    return true;
  }

  // ---------- Why the discipline is needed ----------

  const TWIN := Command("a", 1, Put, "k", "v", None)

  ghost function Twins(k: nat): seq<Call> {
    if k == 0 then [] else Twins(k - 1) + [Admitting(TWIN, 0, 0)]
  }

  ghost function TwinFlights(k: nat): seq<Flight> {
    (if k >= 1 then [NewFlight(TWIN, 1, 0, 0)] else []) + (if k >= 65 then [NewFlight(TWIN, 65, 0, 0)] else [])
  }

  lemma {:induction false} TwinsAreSampled(k: nat, mix: Mix)
    requires k <= 65
    ensures Run(Twins(k), mix) ==
            Node(Counters(k, |TwinFlights(k)|, 0, 0, 0, 0, 0), TwinFlights(k), map[], [])
  {
    if k > 0 {
      TwinsAreSampled(k - 1, mix);
      var n := Run(Twins(k - 1), mix);
      assert Twins(k)[..|Twins(k)| - 1] == Twins(k - 1);
      assert Run(Twins(k), mix) == Admit(n, TWIN, 0, 0);
      TwinAdmitted(k);
    }
  }

  lemma TwinAdmitted(k: nat)
    requires 1 <= k <= 65
    ensures TwinFlights(k) == TwinFlights(k - 1) + if (k - 1) % 64 == 0 then [NewFlight(TWIN, k, 0, 0)] else []
  {
  }

  /** Admitting one identity 65 times and abandoning it once breaks the lifecycle accounting. */
  lemma TwinsAreRejected(mix: Mix)
    ensures !Accepts(Publish(Run(Twins(65) + [Abandoning(TWIN)], mix)))
  {
    TwinsAreSampled(65, mix);
    var n := Run(Twins(65), mix);
    var calls := Twins(65) + [Abandoning(TWIN)];
    assert calls[..|calls| - 1] == Twins(65);
    assert Run(calls, mix) == Abandon(n, TWIN);
    var f, g := NewFlight(TWIN, 1, 0, 0), NewFlight(TWIN, 65, 0, 0);
    assert n.inFlight == [f, g] && [f, g][..1] == [f] && [f][..0] == [];
    assert Matching([f], TWIN) == 1 && Matching([f, g], TWIN) == 2;
    AbandonBalances(n, TWIN);
  }

  // ---------- The node's object ----------

  class Diagnostics {
    var seen: nat
    var sampled: nat
    var completed: nat
    var abandoned: nat
    var skipped: nat
    var discarded: nat
    var evicted: nat
    var inFlight: seq<Flight>
    var marks: map<nat, Mark>
    var retained: seq<Timeline>
    const mix: Mix

    function View(): Node
      reads this
    {
      Node(Counters(seen, sampled, completed, abandoned, skipped, discarded, evicted), inFlight, marks, retained)
    }

    ghost predicate Valid()
      reads this
    {
      Inv(View())
    }

    constructor (mix: Mix)
      ensures Valid() && View() == START && this.mix == mix
    {
      seen, sampled, completed, abandoned, skipped, discarded, evicted := 0, 0, 0, 0, 0, 0, 0;
      inFlight, marks, retained := [], map[], [];
      this.mix := mix;
    }

    method AdmitOperation(c: Command, ingress: int, now: int)
      requires Valid() && Allowed(View(), Admitting(c, ingress, now))
      modifies this
      ensures Valid() && View() == Called(old(View()), Admitting(c, ingress, now), mix)
    {
      StepKeeps(View(), Admitting(c, ingress, now), mix);
      Sample(c, ingress, now);
    }

    method Sample(c: Command, ingress: int, now: int)
      modifies this
      ensures View() == Admit(old(View()), c, ingress, now)
    {
      seen := seen + 1;
      var ordinal := seen;
      if (ordinal - 1) % SAMPLE_EVERY != 0 {
        return;
      }
      sampled := sampled + 1;
      if |inFlight| >= IN_FLIGHT {
        skipped := skipped + 1;
        return;
      }
      inFlight := inFlight + [NewFlight(c, ordinal, ingress, now)];
    }

    method ProposalsSubmitted(cs: seq<Command>, now: int)
      requires Valid()
      modifies this`inFlight
      ensures Valid() && View() == Called(old(View()), Submitting(cs, now), mix)
    {
      StepKeeps(View(), Submitting(cs, now), mix);
      for i := 0 to |cs|
        invariant inFlight == Submit(old(inFlight), cs[..i], now)
      {
        assert cs[..i + 1][..i] == cs[..i];
        var k := Find(inFlight, cs[i]);
        if k < |inFlight| {
          inFlight := inFlight[k := inFlight[k].(submitted := OrElse(inFlight[k].submitted, now))];
        }
      }
      assert cs[..|cs|] == cs;
    }

    method RaftCommitObserved(index: nat, boundary: Boundary, now: int)
      requires Valid()
      modifies this`marks, this`evicted
      ensures Valid() && View() == Called(old(View()), Observing(index, boundary, now), mix)
    {
      StepKeeps(View(), Observing(index, boundary, now), mix);
      if index !in marks {
        marks := marks[index := Mark(now, boundary)];
      }
      ghost var target := Evict(View());
      while |marks| > COMMIT_MARKS
        invariant Evict(View()) == target
        decreases |marks|
      {
        FewerKeys(marks, Least(marks.Keys));
        marks := marks - {Least(marks.Keys)};
        evicted := evicted + 1;
      }
    }

    method ApplicationDispatched(entries: seq<Durable.Applied>, now: int)
      requires Valid() && Allowed(View(), Dispatching(entries, now))
      modifies this`marks, this`inFlight
      ensures Valid() && View() == Called(old(View()), Dispatching(entries, now), mix)
    {
      StepKeeps(View(), Dispatching(entries, now), mix);
      DispatchEntries(entries, now);
    }

    method DispatchEntries(entries: seq<Durable.Applied>, now: int)
      modifies this`marks, this`inFlight
      ensures View() == Dispatch(old(View()), entries, now)
    {
      for i := 0 to |entries|
        invariant View() == Dispatch(old(View()), entries[..i], now)
      {
        assert entries[..i + 1][..i] == entries[..i];
        DispatchEntry(entries[i], now);
      }
      assert entries[..|entries|] == entries;
    }

    method DispatchEntry(entry: Durable.Applied, now: int)
      modifies this`marks, this`inFlight
      ensures View() == DispatchOne(old(View()), entry, now)
    {
      var commit := if entry.index in marks then Some(marks[entry.index]) else None;
      marks := marks - {entry.index};
      if entry.command.None? {
        return;
      }
      var k := Find(inFlight, entry.command.value);
      if k < |inFlight| && inFlight[k].index.None? {
        inFlight := inFlight[k := inFlight[k].(index := Some(entry.index), commit := commit, dispatched := Some(now))];
      }
    }

    method MarkApplication(entries: seq<Durable.Applied>, stage: Stage, now: int)
      requires Valid()
      modifies this`inFlight
      ensures Valid() && View() == Called(old(View()), Marking(entries, stage, now), mix)
    {
      StepKeeps(View(), Marking(entries, stage, now), mix);
      for i := 0 to |entries|
        invariant inFlight == MarkAll(old(inFlight), entries[..i], stage, now)
      {
        assert entries[..i + 1][..i] == entries[..i];
        var k := FindIndex(inFlight, entries[i].index);
        if k < |inFlight| {
          match stage
          case Started => inFlight := inFlight[k := inFlight[k].(started := OrElse(inFlight[k].started, now))];
          case Durable => inFlight := inFlight[k := inFlight[k].(durable := OrElse(inFlight[k].durable, now))];
        }
      }
      assert entries[..|entries|] == entries;
    }

    method ClientCompletedAt(c: Command, now: int)
      requires Valid()
      modifies this`inFlight, this`discarded, this`completed, this`retained
      ensures Valid() && View() == Called(old(View()), Completing(c, now), mix)
    {
      StepKeeps(View(), Completing(c, now), mix);
      var position := Find(inFlight, c);
      if position == |inFlight| {
        return;
      }
      var timeline := Complete(inFlight[position], now);
      inFlight := inFlight[..position] + inFlight[position + 1..];
      if timeline.None? {
        discarded := discarded + 1;
        return;
      }
      RetainTimeline(timeline.value);
    }

    method RetainTimeline(t: Timeline)
      requires |retained| <= RETAINED
      modifies this`completed, this`retained
      ensures View() == Retain(old(View()), t, mix)
    {
      completed := completed + 1;
      if |retained| < RETAINED {
        retained := retained + [t];
        return;
      }
      var slot := mix(t.ordinal, completed) % completed;
      if slot < RETAINED {
        retained := retained[slot := t];
      }
    }

    method AbandonOperation(c: Command)
      requires Valid()
      modifies this`inFlight, this`abandoned
      ensures Valid() && View() == Called(old(View()), Abandoning(c), mix)
    {
      StepKeeps(View(), Abandoning(c), mix);
      var before := |inFlight|;
      inFlight := Without(inFlight, c);
      if |inFlight| != before {
        abandoned := abandoned + 1;
      }
    }
  }
}
