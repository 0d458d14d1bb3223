/**
What a timeline tells is what happened. `Timelines` gives the effect of each call on the node as
a whole; here each call's effect on one operation is stated by itself, and the stages of every
operation are read off the sequence of calls: which call set them, and that it was the first.
*/
module Histories {
  import opened Kv
  import opened Timelines
  import Durable

  // ---------- What one call does to one operation ----------

  ghost predicate Named(cs: seq<Command>, f: Flight) {
    exists i :: 0 <= i < |cs| && Matches(f, cs[i])
  }

  ghost function Submitted(f: Flight, cs: seq<Command>, now: int): Flight {
    if Named(cs, f) && f.submitted.None? then f.(submitted := Some(now)) else f
  }

  /** Among distinct operations, the one found for a command is the one it names. */
  lemma FindsNamed(fs: seq<Flight>, gs: seq<Flight>, c: Command, i: nat)
    requires Distinct(fs) && Advances(fs, gs) && i < |fs|
    ensures Find(gs, c) == i <==> Matches(fs[i], c)
  {
    var k := Find(gs, c);
    assert SameIdentity(fs[i], gs[i]);
    if Matches(fs[i], c) {
      assert SameIdentity(fs[k], gs[k]);
    }
  }

  lemma NamedLast(cs: seq<Command>, f: Flight)
    requires cs != []
    ensures Named(cs, f) <==> Named(cs[..|cs| - 1], f) || Matches(f, cs[|cs| - 1])
  {
  }

  /** A submission reaches exactly the operations it names, and only for the first time. */
  lemma {:induction false} SubmitPoint(fs: seq<Flight>, cs: seq<Command>, now: int, i: nat)
    requires i < |fs| && Distinct(fs)
    ensures |Submit(fs, cs, now)| == |fs| && Submit(fs, cs, now)[i] == Submitted(fs[i], cs, now)
  {
    if cs != [] {
      var before := cs[..|cs| - 1];
      SubmitPoint(fs, before, now, i);
      SubmitAdvances(fs, before, now);
      FindsNamed(fs, Submit(fs, before, now), cs[|cs| - 1], i);
      NamedLast(cs, fs[i]);
    }
  }

  ghost predicate Names(e: Durable.Applied, f: Flight) {
    e.command.Some? && Matches(f, e.command.value)
  }

  /** The first entry that carries the operation's command, or their number. */
  ghost function FirstNaming(entries: seq<Durable.Applied>, f: Flight): (k: nat)
    ensures k <= |entries| && (forall j | 0 <= j < k :: !Names(entries[j], f))
    ensures k < |entries| ==> Names(entries[k], f)
  {
    if entries == [] then 0
    else
      var n := |entries| - 1;
      var k := FirstNaming(entries[..n], f);
      if k < n || Names(entries[n], f) then k else n + 1
  }

  /** The mark that an entry finds: earlier entries of its batch use up the marks of their indexes. */
  ghost function MarkFor(marks: map<nat, Mark>, entries: seq<Durable.Applied>, k: nat): Option<Mark>
    requires k < |entries|
  {
    if entries[k].index in marks && forall j | 0 <= j < k :: entries[j].index != entries[k].index
    then Some(marks[entries[k].index]) else None
  }

  ghost function Dispatched(f: Flight, marks: map<nat, Mark>, entries: seq<Durable.Applied>, now: int): Flight {
    var k := FirstNaming(entries, f);
    if k == |entries| || f.index.Some? then f
    else f.(index := Some(entries[k].index), commit := MarkFor(marks, entries, k), dispatched := Some(now))
  }

  ghost predicate Carried(entries: seq<Durable.Applied>, index: nat) {
    exists j :: 0 <= j < |entries| && entries[j].index == index
  }

  /** A dispatch uses up the marks of its indexes and no other. */
  lemma {:induction false} DispatchMarks(n: Node, entries: seq<Durable.Applied>, now: int)
    ensures var m := Dispatch(n, entries, now);
            forall x: nat ::
              && (x in m.marks <==> x in n.marks && !Carried(entries, x))
              && (x in m.marks ==> m.marks[x] == n.marks[x])
  {
    if entries != [] {
      var before := entries[..|entries| - 1];
      DispatchMarks(n, before, now);
      forall x: nat
        ensures Carried(entries, x) <==> Carried(before, x) || entries[|entries| - 1].index == x
      {
        CarriedLast(entries, x);
      }
    }
  }

  lemma CarriedLast(entries: seq<Durable.Applied>, x: nat)
    requires entries != []
    ensures Carried(entries, x) <==> Carried(entries[..|entries| - 1], x) || entries[|entries| - 1].index == x
  {
  }

  /** A dispatch places an operation at the first entry that carries it, with the mark found there. */
  lemma {:induction false} DispatchPoint(n: Node, entries: seq<Durable.Applied>, now: int, i: nat)
    requires i < |n.inFlight| && Distinct(n.inFlight)
    requires forall j | 0 <= j < |entries| :: entries[j].command.Some? ==> entries[j].index != 0
    ensures var gs := Dispatch(n, entries, now).inFlight;
            |gs| == |n.inFlight| && gs[i] == Dispatched(n.inFlight[i], n.marks, entries, now)
  {
    if entries != [] {
      var last := |entries| - 1;
      var before, e := entries[..last], entries[last];
      DispatchPoint(n, before, now, i);
      DispatchMarks(n, before, now);
      DispatchKeeps(n, before, now);
      if e.command.Some? {
        FindsNamed(n.inFlight, Dispatch(n, before, now).inFlight, e.command.value, i);
      }
      LastEntry(n.inFlight[i], n.marks, entries, now);
    }
  }

  /** The last entry places an operation that none before it has placed. */
  lemma LastEntry(f: Flight, marks: map<nat, Mark>, entries: seq<Durable.Applied>, now: int)
    requires entries != []
    ensures var before, e := entries[..|entries| - 1], entries[|entries| - 1];
            var g := Dispatched(f, marks, before, now);
            var found := if e.index in marks && !Carried(before, e.index) then Some(marks[e.index]) else None;
            Dispatched(f, marks, entries, now) ==
            if Names(e, f) && g.index.None? then g.(index := Some(e.index), commit := found, dispatched := Some(now))
            else g
  {
    var last := |entries| - 1;
    CarriedBefore(entries, last);
    SameEntry(marks, entries, FirstNaming(entries[..last], f));
  }

  lemma CarriedBefore(entries: seq<Durable.Applied>, k: nat)
    requires k < |entries|
    ensures Carried(entries[..k], entries[k].index) <==> exists j :: 0 <= j < k && entries[j].index == entries[k].index
  {
  }

  lemma SameEntry(marks: map<nat, Mark>, entries: seq<Durable.Applied>, k: nat)
    requires entries != [] && k <= |entries| - 1
    ensures k < |entries| - 1 ==> MarkFor(marks, entries, k) == MarkFor(marks, entries[..|entries| - 1], k)
  {
    if k < |entries| - 1 {
      var before := entries[..|entries| - 1];
      assert forall j | 0 <= j <= k :: before[j] == entries[j];
    }
  }

  ghost function Marked(f: Flight, entries: seq<Durable.Applied>, stage: Stage, now: int): Flight {
    if f.index.None? || !Carried(entries, f.index.value) then f
    else if stage.Started? then f.(started := OrElse(f.started, now))
    else f.(durable := OrElse(f.durable, now))
  }

  /** No operation before this one has its index. */
  ghost predicate FirstThere(fs: seq<Flight>, i: nat)
    requires i < |fs|
  {
    forall j | 0 <= j < i :: fs[j].index != fs[i].index
  }

  ghost predicate SameIndexes(fs: seq<Flight>, gs: seq<Flight>) {
    |fs| == |gs| && forall i | 0 <= i < |fs| :: fs[i].index == gs[i].index
  }

  lemma {:induction false} MarkKeepsIndexes(fs: seq<Flight>, entries: seq<Durable.Applied>, stage: Stage, now: int)
    ensures SameIndexes(fs, MarkAll(fs, entries, stage, now))
  {
    if entries != [] {
      MarkKeepsIndexes(fs, entries[..|entries| - 1], stage, now);
    }
  }

  lemma FindsIndexed(fs: seq<Flight>, gs: seq<Flight>, index: nat, i: nat)
    requires SameIndexes(fs, gs) && i < |fs|
    ensures FindIndex(gs, index) == i <==> fs[i].index == Some(index) && FirstThere(fs, i)
  {
    assert forall j | 0 <= j <= i :: gs[j].index == fs[j].index;
  }

  /** Progress of the application reaches the first operation at each index, and no other. */
  lemma {:induction false} MarkPoint(fs: seq<Flight>, entries: seq<Durable.Applied>, stage: Stage, now: int, i: nat)
    requires i < |fs|
    ensures |MarkAll(fs, entries, stage, now)| == |fs|
    ensures MarkAll(fs, entries, stage, now)[i] ==
            if fs[i].index.Some? && FirstThere(fs, i) then Marked(fs[i], entries, stage, now) else fs[i]
  {
    if entries != [] {
      var before := entries[..|entries| - 1];
      var index := entries[|entries| - 1].index;
      MarkPoint(fs, before, stage, now, i);
      MarkKeepsIndexes(fs, before, stage, now);
      FindsIndexed(fs, MarkAll(fs, before, stage, now), index, i);
      if fs[i].index.Some? {
        CarriedLast(entries, fs[i].index.value);
      }
    }
  }

  // ---------- The calls that set the stages ----------

  ghost function Admissions(calls: seq<Call>): nat {
    if calls == [] then 0
    else Admissions(calls[..|calls| - 1]) + if calls[|calls| - 1].Admitting? then 1 else 0
  }

  /** When the operation was first submitted by a call from `from` on. */
  ghost function SubmittedAt(calls: seq<Call>, from: nat, f: Flight): Option<int> {
    if |calls| <= from then None
    else
      var n := |calls| - 1;
      var earlier := SubmittedAt(calls[..n], from, f);
      if earlier.None? && calls[n].Submitting? && Named(calls[n].commands, f) then Some(calls[n].now) else earlier
  }

  datatype Place = Place(index: nat, at: int)

  /** Where and when the operation was first dispatched by a call from `from` on. */
  ghost function DispatchedAt(calls: seq<Call>, from: nat, f: Flight): Option<Place> {
    if |calls| <= from then None
    else
      var n := |calls| - 1;
      var earlier := DispatchedAt(calls[..n], from, f);
      if earlier.None? && calls[n].Dispatching? && FirstNaming(calls[n].entries, f) < |calls[n].entries|
      then Some(Place(calls[n].entries[FirstNaming(calls[n].entries, f)].index, calls[n].now)) else earlier
  }

  ghost predicate Observed(calls: seq<Call>, index: nat, m: Mark) {
    exists q :: 0 <= q < |calls| && calls[q] == Observing(index, m.boundary, m.at)
  }

  /** A call behind position `p` told of this stage of the application at this index and time. */
  ghost predicate Reached(calls: seq<Call>, p: nat, index: Option<nat>, stage: Stage, at: Option<int>) {
    at.Some? ==>
      index.Some? && exists q :: p < q < |calls| && MarksIndex(calls[q], index.value, stage, at.value)
  }

  ghost predicate MarksIndex(call: Call, index: nat, stage: Stage, at: int) {
    call.Marking? && call.stage == stage && call.now == at && Carried(call.entries, index)
  }

  /** The call at position `p` admitted the operation as the sample of its ordinal. */
  ghost predicate AdmittedAt(calls: seq<Call>, p: nat, f: Flight) {
    && p < |calls| && calls[p].Admitting? && Matches(f, calls[p].command)
    && f.ingress == calls[p].ingress && f.admitted == calls[p].now && f.ordinal == Admissions(calls[..p + 1])
  }

  /** Everything the operation's timeline tells is what the calls since its admission did. */
  ghost predicate Told(calls: seq<Call>, p: nat, f: Flight) {
    && AdmittedAt(calls, p, f)
    && f.submitted == SubmittedAt(calls, p + 1, f)
    && (f.index.Some? <==> f.dispatched.Some?)
    && DispatchedAt(calls, p + 1, f) ==
       (if f.index.Some? && f.dispatched.Some? then Some(Place(f.index.value, f.dispatched.value)) else None)
    && (f.commit.Some? ==> f.index.Some? && Observed(calls, f.index.value, f.commit.value))
    && Reached(calls, p, f.index, Started, f.started) && Reached(calls, p, f.index, Stage.Durable, f.durable)
  }

  ghost predicate HasHistory(calls: seq<Call>, f: Flight) {
    exists p: nat :: Told(calls, p, f)
  }

  ghost predicate AllTold(calls: seq<Call>, fs: seq<Flight>) {
    forall f <- fs :: HasHistory(calls, f)
  }

  ghost predicate MarksTold(calls: seq<Call>, marks: map<nat, Mark>) {
    forall x <- marks :: Observed(calls, x, marks[x])
  }

  // ---------- Each call keeps what is told true ----------

  /** What the calls did to an operation depends on its identity only. */
  lemma {:induction false} SameCalls(calls: seq<Call>, from: nat, f: Flight, g: Flight)
    requires SameIdentity(f, g)
    ensures SubmittedAt(calls, from, f) == SubmittedAt(calls, from, g)
    ensures DispatchedAt(calls, from, f) == DispatchedAt(calls, from, g)
  {
    if |calls| > from {
      var n := |calls| - 1;
      SameCalls(calls[..n], from, f, g);
      if calls[n].Dispatching? {
        SameNaming(calls[n].entries, f, g);
      }
    }
  }

  lemma {:induction false} SameNaming(entries: seq<Durable.Applied>, f: Flight, g: Flight)
    requires SameIdentity(f, g)
    ensures FirstNaming(entries, f) == FirstNaming(entries, g)
  {
    if entries != [] {
      SameNaming(entries[..|entries| - 1], f, g);
    }
  }

  lemma StillReached(calls: seq<Call>, call: Call, p: nat, index: Option<nat>, stage: Stage, at: Option<int>)
    requires Reached(calls, p, index, stage, at)
    ensures Reached(calls + [call], p, index, stage, at)
  {
    var more := calls + [call];
    if at.Some? {
      var q :| p < q < |calls| && MarksIndex(calls[q], index.value, stage, at.value);
      assert more[q] == calls[q];
    }
  }

  lemma StillObserved(calls: seq<Call>, call: Call, index: nat, m: Mark)
    requires Observed(calls, index, m)
    ensures Observed(calls + [call], index, m)
  {
    var more := calls + [call];
    var q :| 0 <= q < |calls| && calls[q] == Observing(index, m.boundary, m.at);
    assert more[q] == calls[q];
  }

  lemma StillAdmitted(calls: seq<Call>, call: Call, p: nat, f: Flight)
    requires AdmittedAt(calls, p, f)
    ensures AdmittedAt(calls + [call], p, f)
  {
    var more := calls + [call];
    assert more[p] == calls[p] && more[..p + 1] == calls[..p + 1];
  }

  /** How a call acts on an operation that stays in flight. */
  ghost function Acted(call: Call, f: Flight, marks: map<nat, Mark>): Flight {
    match call
    case Submitting(cs, now) => Submitted(f, cs, now)
    case Dispatching(entries, now) => Dispatched(f, marks, entries, now)
    case Marking(entries, stage, now) => Marked(f, entries, stage, now)
    case _ => f
  }

  lemma MoreCalls(calls: seq<Call>, call: Call, from: nat, f: Flight)
    requires from <= |calls|
    ensures var earlier := SubmittedAt(calls, from, f);
            SubmittedAt(calls + [call], from, f) ==
            if earlier.None? && call.Submitting? && Named(call.commands, f) then Some(call.now) else earlier
    ensures var earlier := DispatchedAt(calls, from, f);
            DispatchedAt(calls + [call], from, f) ==
            if earlier.None? && call.Dispatching? && FirstNaming(call.entries, f) < |call.entries|
            then Some(Place(call.entries[FirstNaming(call.entries, f)].index, call.now)) else earlier
  {
    assert (calls + [call])[..|calls|] == calls;
  }

  lemma NewlyReached(calls: seq<Call>, call: Call, p: nat, index: nat, stage: Stage)
    requires call.Marking? && call.stage == stage && Carried(call.entries, index) && p < |calls|
    ensures Reached(calls + [call], p, Some(index), stage, Some(call.now))
  {
    assert MarksIndex((calls + [call])[|calls|], index, stage, call.now);
  }

  lemma SubmittedIsTold(calls: seq<Call>, call: Call, p: nat, f: Flight)
    requires Told(calls, p, f) && call.Submitting?
    ensures Told(calls + [call], p, Submitted(f, call.commands, call.now))
  {
    var g := Submitted(f, call.commands, call.now);
    StillTold(calls, call, p, f);
    MoreCalls(calls, call, p + 1, f);
    SameCalls(calls + [call], p + 1, f, g);
  }

  lemma DispatchedIsTold(calls: seq<Call>, call: Call, p: nat, f: Flight, marks: map<nat, Mark>)
    requires Told(calls, p, f) && MarksTold(calls, marks) && call.Dispatching?
    ensures Told(calls + [call], p, Dispatched(f, marks, call.entries, call.now))
  {
    var g := Dispatched(f, marks, call.entries, call.now);
    StillTold(calls, call, p, f);
    MoreCalls(calls, call, p + 1, f);
    SameCalls(calls + [call], p + 1, f, g);
    if g.commit.Some? && f.index.None? {
      StillObserved(calls, call, g.index.value, g.commit.value);
    }
  }

  lemma MarkedIsTold(calls: seq<Call>, call: Call, p: nat, f: Flight)
    requires Told(calls, p, f) && call.Marking?
    ensures Told(calls + [call], p, Marked(f, call.entries, call.stage, call.now))
  {
    var g := Marked(f, call.entries, call.stage, call.now);
    StillTold(calls, call, p, f);
    MoreCalls(calls, call, p + 1, f);
    SameCalls(calls + [call], p + 1, f, g);
    if f.index.Some? && Carried(call.entries, f.index.value) {
      NewlyReached(calls, call, p, f.index.value, call.stage);
    }
  }

  /** What does not depend on later calls stays told. */
  lemma StillTold(calls: seq<Call>, call: Call, p: nat, f: Flight)
    requires Told(calls, p, f)
    ensures var more := calls + [call];
            && AdmittedAt(more, p, f)
            && (f.commit.Some? ==> f.index.Some? && Observed(more, f.index.value, f.commit.value))
            && Reached(more, p, f.index, Started, f.started) && Reached(more, p, f.index, Stage.Durable, f.durable)
  {
    StillAdmitted(calls, call, p, f);
    StillReached(calls, call, p, f.index, Started, f.started);
    StillReached(calls, call, p, f.index, Stage.Durable, f.durable);
    if f.commit.Some? {
      StillObserved(calls, call, f.index.value, f.commit.value);
    }
  }

  lemma ActedIsTold(calls: seq<Call>, call: Call, p: nat, f: Flight, marks: map<nat, Mark>)
    requires Told(calls, p, f) && MarksTold(calls, marks)
    ensures Told(calls + [call], p, Acted(call, f, marks))
  {
    match call
    case Submitting(cs, now) => SubmittedIsTold(calls, call, p, f);
    case Dispatching(entries, now) => DispatchedIsTold(calls, call, p, f, marks);
    case Marking(entries, stage, now) => MarkedIsTold(calls, call, p, f);
    case _ => UntouchedIsTold(calls, call, p, f);
  }

  lemma UntouchedIsTold(calls: seq<Call>, call: Call, p: nat, f: Flight)
    requires Told(calls, p, f) && !call.Submitting? && !call.Dispatching?
    ensures Told(calls + [call], p, f)
  {
    StillTold(calls, call, p, f);
    MoreCalls(calls, call, p + 1, f);
  }

  lemma NewIsTold(calls: seq<Call>, call: Call)
    requires call.Admitting?
    ensures Told(calls + [call], |calls|, NewFlight(call.command, Admissions(calls) + 1, call.ingress, call.now))
  {
    var more := calls + [call];
    assert more[..|calls| + 1] == more && more[..|calls|] == calls;
  }

  /** An operation in flight after a call was in flight before it, or has just been admitted. */
  ghost predicate Stems(n: Node, call: Call, g: Flight) {
    || (exists f :: f in n.inFlight && StemsFrom(n, call, f, g))
    || (call.Admitting? && g == NewFlight(call.command, n.counters.seen + 1, call.ingress, call.now))
  }

  ghost predicate StemsFrom(n: Node, call: Call, f: Flight, g: Flight) {
    g == Acted(call, f, n.marks) || (call.Marking? && g == f)
  }

  lemma EveryFlightStems(n: Node, call: Call, mix: Mix, i: nat)
    requires Inv(n) && Allowed(n, call) && i < |Called(n, call, mix).inFlight|
    ensures Stems(n, call, Called(n, call, mix).inFlight[i])
  {
    var g := Called(n, call, mix).inFlight[i];
    match call
    case Admitting(c, ingress, now) =>
      assert i < |n.inFlight| ==> StemsFrom(n, call, n.inFlight[i], g);
    case Submitting(cs, now) =>
      SubmitAdvances(n.inFlight, cs, now);
      SubmitPoint(n.inFlight, cs, now, i);
      assert StemsFrom(n, call, n.inFlight[i], g);
    case Observing(index, boundary, now) =>
      EvictKeeps(n.(marks := WithMark(n.marks, index, boundary, now)));
      assert StemsFrom(n, call, n.inFlight[i], g);
    case Dispatching(entries, now) =>
      DispatchKeeps(n, entries, now);
      DispatchPoint(n, entries, now, i);
      assert StemsFrom(n, call, n.inFlight[i], g);
    case Marking(entries, stage, now) =>
      MarkAdvances(n.inFlight, entries, stage, now);
      MarkPoint(n.inFlight, entries, stage, now, i);
      assert StemsFrom(n, call, n.inFlight[i], g);
    case Completing(c, now) => FinishStays(n, c, now, mix, i);
    case Abandoning(c) => WithoutSound(n.inFlight, c, n.counters.seen);
  }

  lemma FinishStays(n: Node, c: Command, now: int, mix: Mix, i: nat)
    requires i < |Finish(n, c, now, mix).inFlight|
    ensures Finish(n, c, now, mix).inFlight[i] in n.inFlight
  {
    var k := Find(n.inFlight, c);
    var fs := n.inFlight[..k] + (if k < |n.inFlight| then n.inFlight[k + 1..] else []);
    assert Finish(n, c, now, mix).inFlight == fs;
  }

  lemma MarksStayTold(calls: seq<Call>, n: Node, call: Call, mix: Mix)
    requires MarksTold(calls, n.marks)
    ensures MarksTold(calls + [call], Called(n, call, mix).marks)
  {
    var after := Called(n, call, mix).marks;
    if call.Observing? {
      EvictTakesLowest(n.(marks := WithMark(n.marks, call.index, call.boundary, call.now)));
    } else if call.Dispatching? {
      DispatchMarks(n, call.entries, call.now);
    }
    forall x <- after ensures Observed(calls + [call], x, after[x]) {
      if x in n.marks && after[x] == n.marks[x] {
        StillObserved(calls, call, x, n.marks[x]);
      } else {
        assert (calls + [call])[|calls|] == Observing(x, after[x].boundary, after[x].at);
      }
    }
  }

  lemma SeenNext(n: Node, call: Call, mix: Mix)
    requires Allowed(n, call)
    ensures Called(n, call, mix).counters.seen == n.counters.seen + if call.Admitting? then 1 else 0
  {
    if call.Observing? {
      EvictKeeps(n.(marks := WithMark(n.marks, call.index, call.boundary, call.now)));
    } else if call.Dispatching? {
      DispatchKeeps(n, call.entries, call.now);
    }
  }

  lemma StemsIsTold(calls: seq<Call>, n: Node, call: Call, g: Flight)
    requires AllTold(calls, n.inFlight) && MarksTold(calls, n.marks) && n.counters.seen == Admissions(calls)
    requires Stems(n, call, g)
    ensures HasHistory(calls + [call], g)
  {
    if call.Admitting? && g == NewFlight(call.command, n.counters.seen + 1, call.ingress, call.now) {
      NewIsTold(calls, call);
    } else {
      var f :| f in n.inFlight && StemsFrom(n, call, f, g);
      assert HasHistory(calls, f);
      var p: nat :| Told(calls, p, f);
      StemsFromIsTold(calls, n, call, p, f, g);
    }
  }

  lemma StemsFromIsTold(calls: seq<Call>, n: Node, call: Call, p: nat, f: Flight, g: Flight)
    requires Told(calls, p, f) && MarksTold(calls, n.marks) && StemsFrom(n, call, f, g)
    ensures HasHistory(calls + [call], g)
  {
    if g == Acted(call, f, n.marks) {
      ActedIsTold(calls, call, p, f, n.marks);
    } else {
      UntouchedIsTold(calls, call, p, g);
    }
  }

  /** At every moment, each operation in flight and each mark tells what the calls so far did. */
  lemma {:induction false} FlightsTellTheTruth(calls: seq<Call>, mix: Mix)
    requires Disciplined(calls, mix)
    ensures var n := Timelines.Run(calls, mix);
            AllTold(calls, n.inFlight) && MarksTold(calls, n.marks) && n.counters.seen == Admissions(calls)
  {
    if calls != [] {
      var k := |calls| - 1;
      var before, call := calls[..k], calls[k];
      DisciplinedBefore(calls, mix, k);
      FlightsTellTheTruth(before, mix);
      RunKeeps(before, mix);
      var n := Timelines.Run(before, mix);
      assert AllowedAt(calls, mix, k) && before + [call] == calls;
      SeenNext(n, call, mix);
      MarksStayTold(before, n, call, mix);
      FlightsStayTold(before, n, call, mix);
    }
  }

  lemma FlightsStayTold(calls: seq<Call>, n: Node, call: Call, mix: Mix)
    requires AllTold(calls, n.inFlight) && MarksTold(calls, n.marks) && n.counters.seen == Admissions(calls)
    requires Inv(n) && Allowed(n, call)
    ensures AllTold(calls + [call], Called(n, call, mix).inFlight)
  {
    var fs := Called(n, call, mix).inFlight;
    forall f <- fs ensures HasHistory(calls + [call], f) {
      var i :| 0 <= i < |fs| && fs[i] == f;
      EveryFlightStems(n, call, mix, i);
      StemsIsTold(calls, n, call, f);
    }
  }

  /** The call at position `q` completed the operation that the call at `p` had admitted, as this timeline. */
  ghost predicate CompletedAt(calls: seq<Call>, q: nat, p: nat, f: Flight, t: Timeline) {
    && q < |calls| && calls[q].Completing? && Matches(f, calls[q].command)
    && Told(calls[..q], p, f) && Complete(f, calls[q].now) == Some(t)
  }

  ghost predicate IsHistory(calls: seq<Call>, t: Timeline) {
    exists q: nat, p: nat, f: Flight :: CompletedAt(calls, q, p, f, t)
  }

  lemma StillHistory(calls: seq<Call>, call: Call, t: Timeline)
    requires IsHistory(calls, t)
    ensures IsHistory(calls + [call], t)
  {
    var q: nat, p: nat, f: Flight :| CompletedAt(calls, q, p, f, t);
    var more := calls + [call];
    assert more[q] == calls[q] && more[..q] == calls[..q];
    assert CompletedAt(more, q, p, f, t);
  }

  /** What is retained after a call was retained before, or is the timeline the call completed. */
  lemma RetainedStems(n: Node, call: Call, mix: Mix, t: Timeline)
    requires Allowed(n, call) && t in Called(n, call, mix).retained
    ensures t in n.retained ||
            (call.Completing? && var k := Find(n.inFlight, call.command);
                                 k < |n.inFlight| && Complete(n.inFlight[k], call.now) == Some(t))
  {
    if call.Observing? {
      EvictKeeps(n.(marks := WithMark(n.marks, call.index, call.boundary, call.now)));
    } else if call.Dispatching? {
      DispatchKeeps(n, call.entries, call.now);
    }
  }

  /** Every retained timeline is the history of one operation, from its admission to its completion. */
  lemma {:induction false} TimelinesTellTheTruth(calls: seq<Call>, mix: Mix, t: Timeline)
    requires Disciplined(calls, mix) && t in Timelines.Run(calls, mix).retained
    ensures IsHistory(calls, t)
  {
    if calls != [] {
      var k := |calls| - 1;
      var before, call := calls[..k], calls[k];
      var n := Timelines.Run(before, mix);
      DisciplinedBefore(calls, mix, k);
      assert AllowedAt(calls, mix, k) && before + [call] == calls;
      RetainedStems(n, call, mix, t);
      if t in n.retained {
        TimelinesTellTheTruth(before, mix, t);
        StillHistory(before, call, t);
      } else {
        FlightsTellTheTruth(before, mix);
        var i := Find(n.inFlight, call.command);
        assert HasHistory(before, n.inFlight[i]);
        var p: nat :| Told(before, p, n.inFlight[i]);
        assert CompletedAt(calls, k, p, n.inFlight[i], t);
      }
    }
  }
}
