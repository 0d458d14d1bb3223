/**
The durable application: a key-value model behind a journal. Batches of log entries and
installed snapshots are journaled before they take effect; a checkpoint replaces the
journal by one snapshot of the current state.

The functions give the meaning of a record and of a whole journal. The class is the
node's object, whose methods are proved against them.
*/
module Durable {
  import opened Kv
  import opened Journal

  const SNAPSHOT_SCHEMA := 1

  datatype Applied = Applied(index: nat, command: Option<Command>, metadata: Option<string>)

  datatype Snapshot = Snapshot(schema: nat, index: nat, model: State, metadata: Option<string>)

  datatype Record = Entries(batch: seq<Applied>) | Installed(snapshot: Snapshot)

  /** An encoded snapshot and the log boundary it is labelled with. */
  datatype Encoded = Encoded(index: nat, payload: seq<byte>)

  datatype App = App(index: nat, hasApplied: bool, model: State, metadata: Option<string>)

  const NewApp := App(0, false, State(map[], map[]), None)

  // ---------- Meaning of records ----------

  function ReplayEntry(a: App, e: Applied): Option<App> {
    if a.hasApplied && e.index <= a.index then None
    else Some(App(
      e.index, true,
      if e.command.Some? then Step(a.model, e.command.value).0 else a.model,
      if e.metadata.Some? then e.metadata else a.metadata))
  }

  function ReplayBatch(a: App, batch: seq<Applied>): Option<App> {
    if batch == [] then Some(a)
    else
      var before := ReplayBatch(a, batch[..|batch| - 1]);
      if before.None? then None else ReplayEntry(before.value, batch[|batch| - 1])
  }

  predicate ValidSnapshot(s: Snapshot) {
    s.schema == SNAPSHOT_SCHEMA && s.index != 0
  }

  function Restored(s: Snapshot): App {
    App(s.index, true, s.model, s.metadata)
  }

  function RestoreSnapshot(a: App, s: Snapshot): Option<App> {
    if !ValidSnapshot(s) then None
    else if a.hasApplied && s.index < a.index then None
    else if a.hasApplied && s.index == a.index && (s.model != a.model || s.metadata != a.metadata) then None
    else Some(Restored(s))
  }

  function ReplayRecord(a: App, r: Record): Option<App> {
    match r
    case Entries(batch) => ReplayBatch(a, batch)
    case Installed(s) => RestoreSnapshot(a, s)
  }

  /** The state that replaying a whole journal gives, if it can be replayed. */
  function ReplayAll(records: seq<Record>): Option<App> {
    if records == [] then Some(NewApp)
    else
      var before := ReplayAll(records[..|records| - 1]);
      if before.None? then None else ReplayRecord(before.value, records[|records| - 1])
  }

  function SnapshotOf(a: App): Snapshot {
    Snapshot(SNAPSHOT_SCHEMA, a.index, a.model, a.metadata)
  }

  function Answers(a: App, batch: seq<Applied>): seq<Option<Outcome>>
    requires ReplayBatch(a, batch).Some?
  {
    if batch == [] then []
    else
      var n := |batch| - 1;
      var e := batch[n];
      Answers(a, batch[..n]) +
      [if e.command.Some? then Some(Step(ReplayBatch(a, batch[..n]).value.model, e.command.value).1) else None]
  }

  // ---------- What a replay means ----------

  /** The commands of a batch, in order. */
  ghost function CommandsOf(batch: seq<Applied>): seq<Command> {
    if batch == [] then []
    else
      var e := batch[|batch| - 1];
      CommandsOf(batch[..|batch| - 1]) + if e.command.Some? then [e.command.value] else []
  }

  /** The last metadata given, or what was there before. */
  ghost function LastMetadata(before: Option<string>, batch: seq<Applied>): Option<string> {
    if batch == [] then before
    else
      var e := batch[|batch| - 1];
      if e.metadata.Some? then e.metadata else LastMetadata(before, batch[..|batch| - 1])
  }

  /** A replayed batch leaves the model as the log of its commands does, at its last index. */
  lemma {:induction false} ReplayIsRun(a: App, batch: seq<Applied>)
    requires ReplayBatch(a, batch).Some?
    ensures var b := ReplayBatch(a, batch).value;
            && b.model == Run(a.model, CommandsOf(batch)) && b.metadata == LastMetadata(a.metadata, batch)
            && (if batch == [] then b == a else b.hasApplied && b.index == batch[|batch| - 1].index)
  {
    if batch != [] {
      var n := |batch| - 1;
      ReplayIsRun(a, batch[..n]);
      var before := CommandsOf(batch[..n]);
      if batch[n].command.Some? {
        assert (before + [batch[n].command.value])[..|before|] == before;
      } else {
        assert before + [] == before;
      }
    }
  }

  /** Which of the batch's commands the entry at `k` carries. */
  ghost function CommandAt(batch: seq<Applied>, k: nat): (i: nat)
    requires k < |batch| && batch[k].command.Some?
    ensures i < |CommandsOf(batch)| && CommandsOf(batch)[i] == batch[k].command.value
    decreases |batch|
  {
    if k == |batch| - 1 then |CommandsOf(batch[..k])| else CommandAt(batch[..|batch| - 1], k)
  }

  ghost predicate AnswerIsOfLog(a: App, batch: seq<Applied>, answers: seq<Option<Outcome>>, k: nat)
    requires k < |batch| && |answers| == |batch|
  {
    answers[k] ==
    if batch[k].command.Some? then Some(Answer(a.model, CommandsOf(batch), CommandAt(batch, k))) else None
  }

  lemma AnswerOfPrefix(s: State, log: seq<Command>, more: seq<Command>, i: nat)
    requires i < |log|
    ensures Answer(s, log + more, i) == Answer(s, log, i)
  {
    assert (log + more)[..i] == log[..i];
  }

  /** Every entry is answered as its command is by the log of the batch's commands. */
  lemma {:induction false} AnswersAreOfLog(a: App, batch: seq<Applied>, k: nat)
    requires ReplayBatch(a, batch).Some? && k < |batch|
    ensures |Answers(a, batch)| == |batch| && AnswerIsOfLog(a, batch, Answers(a, batch), k)
  {
    var n := |batch| - 1;
    AnswersLength(a, batch);
    AnswersLength(a, batch[..n]);
    var before := CommandsOf(batch[..n]);
    if k < n {
      AnswersAreOfLog(a, batch[..n], k);
      if batch[k].command.Some? {
        AnswerOfPrefix(a.model, before, CommandsOf(batch)[|before|..], CommandAt(batch[..n], k));
        assert before + CommandsOf(batch)[|before|..] == CommandsOf(batch);
      }
    } else if batch[k].command.Some? {
      ReplayIsRun(a, batch[..n]);
      assert CommandsOf(batch)[..|before|] == before;
    }
  }

  lemma {:induction false} AnswersLength(a: App, batch: seq<Applied>)
    requires ReplayBatch(a, batch).Some?
    ensures |Answers(a, batch)| == |batch|
  {
    if batch != [] {
      AnswersLength(a, batch[..|batch| - 1]);
    }
  }

  /** The model of the last snapshot in a journal, or an empty one. */
  ghost function Base(records: seq<Record>): State {
    if records == [] then State(map[], map[])
    else match records[|records| - 1]
      case Entries(_) => Base(records[..|records| - 1])
      case Installed(s) => s.model
  }

  /** All commands after the last snapshot, in order. */
  ghost function CommandsSince(records: seq<Record>): seq<Command> {
    if records == [] then []
    else match records[|records| - 1]
      case Entries(batch) => CommandsSince(records[..|records| - 1]) + CommandsOf(batch)
      case Installed(_) => []
  }

  /** The last metadata that an entry gave after the last snapshot, or the snapshot's. */
  ghost function MetadataOf(records: seq<Record>): Option<string> {
    if records == [] then None
    else match records[|records| - 1]
      case Entries(batch) => LastMetadata(MetadataOf(records[..|records| - 1]), batch)
      case Installed(s) => s.metadata
  }

  /** The index of the last entry or snapshot. */
  ghost function LastIndex(records: seq<Record>): nat {
    if records == [] then 0
    else match records[|records| - 1]
      case Entries(batch) => if batch == [] then LastIndex(records[..|records| - 1]) else batch[|batch| - 1].index
      case Installed(s) => s.index
  }

  ghost predicate IsStateOf(a: App, records: seq<Record>) {
    && a.model == Run(Base(records), CommandsSince(records))
    && a.metadata == MetadataOf(records) && a.index == LastIndex(records)
  }

  /** A replayed journal gives the state of the log since its last snapshot. */
  lemma {:induction false} JournalIsLog(records: seq<Record>)
    requires ReplayAll(records).Some?
    ensures IsStateOf(ReplayAll(records).value, records)
  {
    if records != [] {
      var n := |records| - 1;
      JournalIsLog(records[..n]);
      if records[n].Entries? {
        ReplayIsRun(ReplayAll(records[..n]).value, records[n].batch);
        RunSplits(Base(records[..n]), CommandsSince(records[..n]), CommandsOf(records[n].batch));
      }
    }
  }

  /** A restored snapshot never moves the index back, and at the same index changes nothing. */
  lemma RestoreNeverRegresses(a: App, s: Snapshot)
    ensures RestoreSnapshot(a, s).Some? <==>
            ValidSnapshot(s) && (a.hasApplied ==> a.index < s.index || RestoreSnapshot(a, s) == Some(a))
    ensures RestoreSnapshot(a, s).Some? ==>
              var b := RestoreSnapshot(a, s).value;
              b.index == s.index && b.model == s.model && b.metadata == s.metadata && b.hasApplied
  {
  }

  // ---------- What is accepted before it is journaled ----------

  predicate ValidCommand(c: Command) {
    && 0 < |c.client| <= 128 && c.sequence != 0
    && 0 < |c.key| <= 256 && |c.value| <= 64 * 1024
    && (c.expected.Some? ==> |c.expected.value| <= 64 * 1024)
    && Supported(c)
  }

  /** The pre-check of a batch: indexes increase from the applied one, commands are valid. */
  predicate Checked(a: App, batch: seq<Applied>) {
    && (forall i | 0 <= i < |batch| :: batch[i].command.Some? ==> ValidCommand(batch[i].command.value))
    && (forall i | 0 <= i < |batch| :: a.hasApplied ==> a.index < batch[i].index)
    && (forall i, j | 0 <= i < j < |batch| :: batch[i].index < batch[j].index)
  }

  /** The pre-check lets through exactly the batches of valid commands that replay. */
  lemma {:induction false} CheckedExactly(a: App, batch: seq<Applied>)
    ensures Checked(a, batch) <==>
            && (forall i | 0 <= i < |batch| :: batch[i].command.Some? ==> ValidCommand(batch[i].command.value))
            && ReplayBatch(a, batch).Some?
  {
    if Checked(a, batch) {
      CheckedBatchReplays(a, batch);
    } else if ReplayBatch(a, batch).Some? {
      forall i, j | 0 <= i < j < |batch| ensures batch[i].index < batch[j].index {
        ReplayedRise(a, batch, j);
      }
      forall i | 0 <= i < |batch| ensures a.hasApplied ==> a.index < batch[i].index {
        ReplayedRise(a, batch, i);
      }
    }
  }

  lemma {:induction false} ReplayedRise(a: App, batch: seq<Applied>, j: nat)
    requires ReplayBatch(a, batch).Some? && j < |batch|
    ensures (a.hasApplied ==> a.index < batch[j].index) && forall i | 0 <= i < j :: batch[i].index < batch[j].index
    decreases |batch|
  {
    var n := |batch| - 1;
    if j < n {
      ReplayedRise(a, batch[..n], j);
    } else {
      ReplayIsRun(a, batch[..n]);
      if n > 0 {
        ReplayedRise(a, batch[..n], n - 1);
      }
    }
  }

  /** A snapshot that is worth journaling: valid and ahead of the state. */
  predicate Ahead(a: App, s: Snapshot) {
    ValidSnapshot(s) && (a.hasApplied ==> a.index < s.index)
  }

  predicate Acceptable(a: App, r: Record) {
    match r
    case Entries(batch) => batch != [] && Checked(a, batch)
    case Installed(s) => Ahead(a, s)
  }

  lemma {:induction false} CheckedBatchReplays(a: App, batch: seq<Applied>)
    requires Checked(a, batch)
    ensures ReplayBatch(a, batch).Some?
    ensures batch != [] ==> var b := ReplayBatch(a, batch).value;
                            b.hasApplied && b.index == batch[|batch| - 1].index
  {
    if batch != [] {
      CheckedBatchReplays(a, batch[..|batch| - 1]);
    }
  }

  /** After its pre-check an accepted record cannot fail in replay, and the index moves on. */
  lemma AcceptedNeverFails(a: App, r: Record)
    requires Acceptable(a, r)
    ensures ReplayRecord(a, r).Some?
    ensures ReplayRecord(a, r).value.hasApplied
    ensures a.hasApplied ==> a.index < ReplayRecord(a, r).value.index
  {
    if r.Entries? {
      CheckedBatchReplays(a, r.batch);
    }
  }

  /** Replaying the snapshot of a state, alone, gives that state. */
  lemma SnapshotStandsForState(a: App)
    requires a.hasApplied && a.index != 0
    ensures ReplayAll([Installed(SnapshotOf(a))]) == Some(a)
  {
    assert [Installed(SnapshotOf(a))][..0] == [];
  }

  // ---------- The object ----------

  class DurableModel {
    const journal: Journal<Record>
    const model: Model
    var index: nat
    var hasApplied: bool
    var metadata: Option<string>
    var checkpointBytes: nat

    function Current(): App
      reads this, model
    {
      App(index, hasApplied, model.Contents(), metadata)
    }

    ghost predicate Valid()
      reads this, journal
    {
      journal.Valid()
    }

    constructor (journal: Journal<Record>)
      requires journal.Valid()
      ensures Valid() && Current() == NewApp && this.journal == journal && fresh(model)
      ensures checkpointBytes == 64 * 1024 * 1024
    {
      this.journal := journal;
      this.model := new Model();
      index, hasApplied, metadata := 0, false, None;
      checkpointBytes := 64 * 1024 * 1024;
    }

    static method Open(format: Format<Record>, before: Files, existed: bool) returns (result: Option<DurableModel>)
      requires existed ==> before.path < |before.inodes|
      ensures !existed ==> result.Some? && result.value.Current() == NewApp
      ensures var files := Present(before, existed);
              var found := Scan(format, files.inodes[files.path]);
              && (result.Some? <==> found.Opened? && ReplayAll(found.records).Some?)
              && (result.Some? ==>
                    var m := result.value;
                    && m.Valid() && m.Current() == ReplayAll(found.records).value
                    && IsStateOf(m.Current(), found.records)
                    && m.journal.format == format && !m.journal.poisoned
                    && m.journal.files == Kept(files, found.valid))
    {
      var journal, records := Journal<Record>.Open(format, before, existed);
      if journal.None? {
        return None;
      }
      var m := new DurableModel(journal.value);
      var ok := m.ReplayJournal(records);
      return if ok then Some(m) else None;
    }

    /** Replays the records of a journal that was just opened. */
    method ReplayJournal(records: seq<Record>) returns (ok: bool)
      requires Current() == NewApp
      modifies this, model
      ensures ok <==> ReplayAll(records).Some?
      ensures ok ==> Some(Current()) == ReplayAll(records) && IsStateOf(Current(), records)
    {
      for i := 0 to |records|
        invariant ReplayAll(records[..i]) == Some(Current())
      {
        assert records[..i + 1][..i] == records[..i];
        match records[i] {
          case Entries(batch) =>
            var answers := Replay(batch);
            ok := answers.Some?;
          case Installed(s) =>
            ok := Restore(s);
        }
        if !ok {
          ReplayStops(records, i + 1);
          return false;
        }
      }
      assert records[..|records|] == records;
      JournalIsLog(records);
      return true;
    }

    method Restore(s: Snapshot) returns (ok: bool)
      modifies this, model
      ensures ok <==> RestoreSnapshot(old(Current()), s).Some?
      ensures ok ==> Some(Current()) == RestoreSnapshot(old(Current()), s)
      ensures !ok ==> Current() == old(Current())
    {
      if s.schema != SNAPSHOT_SCHEMA || s.index == 0 {
        return false;
      }
      if hasApplied && s.index < index {
        return false;
      }
      if hasApplied && s.index == index && (s.model != model.Contents() || s.metadata != metadata) {
        return false;
      }
      index, hasApplied, metadata := s.index, true, s.metadata;
      model.values, model.sessions := s.model.values, s.model.sessions;
      return true;
    }

    method Replay(entries: seq<Applied>) returns (answers: Option<seq<Option<Outcome>>>)
      modifies this, model
      ensures answers.Some? <==> ReplayBatch(old(Current()), entries).Some?
      ensures answers.Some? ==> Some(Current()) == ReplayBatch(old(Current()), entries)
      ensures answers.Some? ==> answers.value == Answers(old(Current()), entries) && |answers.value| == |entries|
      ensures answers.Some? ==> model.Contents() == Run(old(model.Contents()), CommandsOf(entries))
      ensures answers.Some? ==> forall k: nat | k < |entries| :: AnswerIsOfLog(old(Current()), entries, answers.value, k)
      ensures checkpointBytes == old(checkpointBytes)
    {
      ghost var start := Current();
      var out := [];
      for i := 0 to |entries|
        invariant ReplayBatch(start, entries[..i]) == Some(Current())
        invariant out == Answers(start, entries[..i])
        invariant checkpointBytes == old(checkpointBytes)
      {
        assert entries[..i + 1][..i] == entries[..i];
        if hasApplied && entries[i].index <= index {
          BatchStops(start, entries, i + 1);
          return None;
        }
        index, hasApplied := entries[i].index, true;
        if entries[i].metadata.Some? {
          metadata := entries[i].metadata;
        }
        var answer := None;
        if entries[i].command.Some? {
          var outcome := model.Apply(entries[i].command.value);
          answer := Some(outcome);
        }
        out := out + [answer];
      }
      assert entries[..|entries|] == entries;
      ReplayIsRun(start, entries);
      AnswersLength(start, entries);
      forall k: nat | k < |entries| ensures AnswerIsOfLog(start, entries, out, k) {
        AnswersAreOfLog(start, entries, k);
      }
      return Some(out);
    }

    /** Whether indexes increase from the applied one and all commands are valid. */
    method PreCheck(entries: seq<Applied>) returns (ok: bool)
      ensures ok <==> Checked(Current(), entries)
    {
      var last, any := index, hasApplied;
      for i := 0 to |entries|
        invariant Checked(Current(), entries[..i])
        invariant last == (if i == 0 then index else entries[i - 1].index) && any == (i > 0 || hasApplied)
      {
        if any && entries[i].index <= last {
          assert !Checked(Current(), entries);
          return false;
        }
        if entries[i].command.Some? && !ValidCommand(entries[i].command.value) {
          return false;
        }
        last, any := entries[i].index, true;
      }
      assert entries[..|entries|] == entries;
      return true;
    }

    /** Journals a batch and then applies it; a refused batch leaves everything unchanged. */
    method Apply(entries: seq<Applied>) returns (answers: Option<seq<Option<Outcome>>>)
      requires Valid()
      modifies this, journal, model
      ensures Valid()
      ensures entries == [] ==> answers == Some([]) && Current() == old(Current()) && journal.files == old(journal.files)
      ensures entries != [] ==>
                (answers.Some? <==>
                 Acceptable(old(Current()), Entries(entries)) && !old(journal.poisoned) &&
                 Fits(journal.format.encode(Entries(entries))))
      ensures entries != [] && answers.Some? ==>
                && Some(Current()) == ReplayRecord(old(Current()), Entries(entries))
                && answers.value == Answers(old(Current()), entries) && |answers.value| == |entries|
                && model.Contents() == Run(old(model.Contents()), CommandsOf(entries))
                && metadata == LastMetadata(old(metadata), entries) && index == entries[|entries| - 1].index
                && (forall k: nat | k < |entries| :: AnswerIsOfLog(old(Current()), entries, answers.value, k))
                && journal.files == Extended(old(journal.files), Frame(journal.format, journal.format.encode(Entries(entries))))
      ensures answers.None? ==> Current() == old(Current()) && journal.files == old(journal.files)
    {
      if |entries| == 0 {
        return Some([]);
      }
      var checked := PreCheck(entries);
      if !checked {
        return None;
      }
      var ok := journal.Append(Entries(entries));
      if !ok {
        return None;
      }
      AcceptedNeverFails(Current(), Entries(entries));
      ReplayIsRun(Current(), entries);
      answers := Replay(entries);
    }

    /** Durably replaces the state by a snapshot that is ahead of it. */
    method InstallSnapshot(s: Snapshot) returns (ok: bool)
      requires Valid()
      modifies this, journal, model
      ensures Valid()
      ensures old(Current()).hasApplied && ValidSnapshot(s) && Restored(s) == old(Current()) ==>
                ok && Current() == old(Current()) && journal.files == old(journal.files)
      ensures Ahead(old(Current()), s) ==>
                (ok <==> !old(journal.poisoned) && Fits(journal.format.encode(Installed(s))))
      ensures Ahead(old(Current()), s) && ok ==>
                && Current() == Restored(s)
                && journal.files == Extended(old(journal.files), Frame(journal.format, journal.format.encode(Installed(s))))
      ensures !ok || !Ahead(old(Current()), s) ==> Current() == old(Current()) && journal.files == old(journal.files)
      ensures ok ==> ValidSnapshot(s) && (Ahead(old(Current()), s) || Restored(s) == old(Current()))
    {
      if s.schema != SNAPSHOT_SCHEMA || s.index == 0 {
        return false;
      }
      if hasApplied && s.index < index {
        return false;
      }
      if hasApplied && s.index == index && s.model == model.Contents() && s.metadata == metadata {
        return true;
      }
      if hasApplied && s.index == index {
        return false;
      }
      ok := journal.Append(Installed(s));
      if ok {
        ok := Restore(s);
      }
    }

    /**
    Encodes the current state: with a faithful codec the payload decodes to a record whose
    replay, alone, gives exactly this state.
    */
    method EncodeSnapshot() returns (e: Encoded)
      ensures e.index == index && e.payload == journal.format.encode(Installed(SnapshotOf(Current())))
      ensures Faithful(journal.format) ==> journal.format.decode(e.payload).Some?
      ensures Faithful(journal.format) && hasApplied && index != 0 ==>
                ReplayAll([journal.format.decode(e.payload).value]) == Some(Current())
    {
      var snapshot := Snapshot(SNAPSHOT_SCHEMA, index, model.Contents(), metadata);
      e := Encoded(index, journal.format.encode(Installed(snapshot)));
      if hasApplied && index != 0 {
        SnapshotStandsForState(Current());
      }
    }

    /** Replaces the journal by an encoded snapshot labelled with the current index. */
    method CheckpointSnapshot(e: Encoded, failure: Failure) returns (ok: bool)
      requires Valid()
      modifies journal
      ensures Valid()
      ensures ok <==> e.index != 0 && e.index == index && !old(journal.poisoned) && Fits(e.payload) && failure == NoFailure
      ensures ok ==>
                !journal.poisoned && journal.files == Replaced(old(journal.files), Frame(journal.format, e.payload))
      ensures !ok ==>
                journal.files == old(journal.files) ||
                (journal.poisoned && Fits(e.payload) &&
                 journal.files.inodes == old(journal.files).inodes + [Frame(journal.format, e.payload)])
    {
      if e.index == 0 || e.index != index {
        return false;
      }
      ok := journal.Checkpoint(e.payload, failure);
    }

    /** Checkpoints exactly when the journal file has outgrown its bound. */
    method MaintainCheckpoint(e: Encoded, failure: Failure) returns (ok: bool)
      requires Valid()
      modifies journal
      ensures Valid()
      ensures |old(journal.files).inodes[old(journal.file)]| <= checkpointBytes ==> ok && journal.files == old(journal.files)
      ensures |old(journal.files).inodes[old(journal.file)]| > checkpointBytes ==>
                && (ok <==>
                    e.index != 0 && e.index == index && !old(journal.poisoned) && Fits(e.payload) && failure == NoFailure)
                && (ok ==> !journal.poisoned && journal.files == Replaced(old(journal.files), Frame(journal.format, e.payload)))
                && (!ok ==>
                      journal.files == old(journal.files) ||
                      (journal.poisoned && Fits(e.payload) &&
                       journal.files.inodes == old(journal.files).inodes + [Frame(journal.format, e.payload)]))
    {
      ok := true;
      if |journal.files.inodes[journal.file]| > checkpointBytes {
        ok := CheckpointSnapshot(e, failure);
      }
    }
  }

  /** The file that the path names, with these bytes at its end. */
  function Extended(files: Files, b: seq<byte>): Files
    requires files.path < |files.inodes|
  {
    files.(inodes := files.inodes[files.path := files.inodes[files.path] + b])
  }

  /** The path names a new file with exactly these bytes. */
  function Replaced(files: Files, b: seq<byte>): Files {
    Files(files.inodes + [b], |files.inodes|)
  }

  lemma {:induction false} ReplayStops(records: seq<Record>, n: nat)
    requires n <= |records| && ReplayAll(records[..n]).None?
    ensures ReplayAll(records).None?
    decreases |records|
  {
    if n < |records| {
      assert records[..|records| - 1][..n] == records[..n];
      ReplayStops(records[..|records| - 1], n);
    } else {
      assert records[..n] == records;
    }
  }

  lemma {:induction false} BatchStops(a: App, batch: seq<Applied>, n: nat)
    requires n <= |batch| && ReplayBatch(a, batch[..n]).None?
    ensures ReplayBatch(a, batch).None?
    decreases |batch|
  {
    if n < |batch| {
      assert batch[..|batch| - 1][..n] == batch[..n];
      BatchStops(a, batch[..|batch| - 1], n);
    } else {
      assert batch[..n] == batch;
    }
  }
}
