/**
Crash recovery of the durable application, as a state machine over its file operations.
Every open, append and checkpoint is split at each point where the process can die. The
death of the process leaves what is visible, the unsynced included; a power loss while it is
down then leaves what storage has: one of the names that the directory had since it was last
synced, and of that file the synced bytes and some of what came after them.

`history` is the sequence of records that the file at the path stands for. `promised` is how
much of it was promised to a caller. Recovery itself never fails. Promises are kept in
every run in which each open finds the directory settled, and an open that does not can be
followed by the loss of an acknowledged record.
*/
module Recovery {
  import opened Kv
  import opened Journal
  import opened Durable
  import opened Disk
  import opened Media
  import opened Standing

  /** How far a checkpoint has come. */
  datatype Stage = Writing | Synced | Renamed | Published

  datatype Activity =
    | Idle
    | Appending(record: Record)
    | Checkpointing(stage: Stage, temporary: nat, payload: seq<byte>)

  datatype Process =
    | Down
    | Creating
    | Up(app: App, file: nat, poisoned: bool, activity: Activity, encoded: set<Encoded>)

  /** What counts as promised: acknowledged records, or also what a process found when it opened. */
  datatype Promise = Acknowledged | Observed

  /**
  `path` is what the path names now; `names` holds what it has named since the directory was
  last synced, any of which a power loss may bring back.
  */
  datatype System = System(
    inodes: seq<File>, path: Option<nat>, names: set<Option<nat>>, process: Process,
    history: seq<Record>, promised: nat)

  const Initial := System([], None, {None}, Down, [], 0)

  // ---------- Opening ----------

  /** A missing file is created; the directory is synced before it is used. */
  ghost predicate Creates(s: System, t: System) {
    && s.process.Down? && s.path.None?
    && var name := Some(|s.inodes|);
       t == s.(inodes := s.inodes + [EmptyFile], path := name, names := s.names + {name}, process := Creating)
  }

  ghost predicate FinishesCreating(s: System, t: System) {
    && s.process.Creating? && s.path.Some?
    && t == s.(names := {s.path}, process := Up(NewApp, s.path.value, false, Idle, {}))
  }

  /** An existing file is parsed; only if its tail is torn is it cut and synced. */
  ghost predicate Opens(md: Medium, p: Promise, s: System, t: System) {
    && s.process.Down? && s.path.Some? && s.path.value < |s.inodes|
    && var file := s.inodes[s.path.value];
       var found := md.read(Bytes(file));
       && found.Readable? && found.valid <= |Bytes(file)|
       && t == s.(
            inodes := s.inodes[s.path.value := Reopened(file, found.valid)],
            process := Up(found.app, s.path.value, false, Idle, {}),
            promised := if p.Observed? then |s.history| else s.promised)
  }

  /** The process dies while opening, after it cut the tail and before the sync. */
  ghost predicate DiesOpening(md: Medium, s: System, t: System) {
    && s.process.Down? && s.path.Some? && s.path.value < |s.inodes|
    && var file := s.inodes[s.path.value];
       var found := md.read(Bytes(file));
       && found.Readable? && found.valid < |Bytes(file)|
       && t == s.(inodes := s.inodes[s.path.value := Cut(file, found.valid)])
  }

  // ---------- Appending ----------

  ghost predicate Free(s: System) {
    s.process.Up? && s.process.activity == Idle
  }

  /** The frame of an accepted record is about to be written. */
  ghost predicate Writes(md: Medium, s: System, t: System, r: Record) {
    && Free(s) && !s.process.poisoned
    && Acceptable(s.process.app, r) && md.Fits(r)
    && t == s.(process := s.process.(activity := Appending(r)))
  }

  /** The frame is written and synced: the record is applied and acknowledged. */
  ghost predicate Acknowledges(md: Medium, s: System, t: System) {
    && s.process.Up? && s.process.activity.Appending?
    && s.process.file < |s.inodes|
    && var r := s.process.activity.record;
       && md.Fits(r) && ReplayRecord(s.process.app, r).Some?
       && t == s.(
            inodes := s.inodes[s.process.file := Sync(Write(s.inodes[s.process.file], md.Frame(r)))],
            process := s.process.(app := ReplayRecord(s.process.app, r).value, activity := Idle),
            history := s.history + [r], promised := |s.history| + 1)
  }

  // ---------- Checkpoints ----------

  ghost predicate Encodes(md: Medium, s: System, t: System) {
    && Free(s)
    && var e := Encoded(s.process.app.index, md.encode(Installed(SnapshotOf(s.process.app))));
       t == s.(process := s.process.(encoded := s.process.encoded + {e}))
  }

  /** A checkpoint starts from an encoded snapshot whose label equals the applied index. */
  ghost predicate Checkpoints(md: Medium, s: System, t: System, e: Encoded) {
    && Free(s) && !s.process.poisoned
    && e in s.process.encoded && e.index != 0 && e.index == s.process.app.index && md.fits(e.payload)
    && t == s.(inodes := s.inodes + [EmptyFile],
               process := s.process.(poisoned := true, activity := Checkpointing(Writing, |s.inodes|, e.payload)))
  }

  ghost predicate SyncsTemporary(md: Medium, s: System, t: System) {
    && s.process.Up? && s.process.activity.Checkpointing? && s.process.activity.stage == Writing
    && var a := s.process.activity;
       && a.temporary < |s.inodes| && md.fits(a.payload)
       && t == s.(inodes := s.inodes[a.temporary := Sync(Write(s.inodes[a.temporary], md.wrap(a.payload)))],
                  process := s.process.(activity := a.(stage := Synced)))
  }

  ghost predicate Renames(s: System, t: System) {
    && s.process.Up? && s.process.activity.Checkpointing? && s.process.activity.stage == Synced
    && var a := s.process.activity;
       t == s.(path := Some(a.temporary), names := s.names + {Some(a.temporary)},
               process := s.process.(activity := a.(stage := Renamed)))
  }

  ghost predicate SyncsDirectory(s: System, t: System) {
    && s.process.Up? && s.process.activity.Checkpointing? && s.process.activity.stage == Renamed
    && t == s.(names := {s.path}, process := s.process.(activity := s.process.activity.(stage := Published)))
  }

  ghost predicate Resumes(s: System, t: System) {
    && s.process.Up? && s.process.activity.Checkpointing? && s.process.activity.stage == Published && s.path.Some?
    && t == s.(process := s.process.(file := s.path.value, poisoned := false, activity := Idle))
  }

  /** A checkpoint fails at any stage and the process goes on, poisoned. */
  ghost predicate FailsCheckpoint(s: System, t: System) {
    && s.process.Up? && s.process.activity.Checkpointing?
    && t == s.(process := s.process.(activity := Idle))
  }

  // ---------- Death and power loss ----------

  /** The process dies. Of a frame being written any part is visible, and nothing is synced. */
  ghost predicate Dies(md: Medium, s: System, t: System, part: seq<byte>) {
    && !s.process.Down?
    && if s.process.Up? && s.process.activity.Appending? then
         var r, file := s.process.activity.record, s.process.file;
         && file < |s.inodes| && md.Fits(r) && part <= md.Frame(r)
         && t == s.(
              inodes := if part == [] then s.inodes else s.inodes[file := Write(s.inodes[file], part)],
              process := Down,
              history := if part == md.Frame(r) then s.history + [r] else s.history)
       else
         t == s.(process := Down)
  }

  /** The directory and the file it then names, as a power loss may leave them. */
  ghost predicate Survives(s: System, name: Option<nat>, b: seq<byte>) {
    name in s.names && (name.Some? ==> name.value < |s.inodes| && Leaves(s.inodes[name.value], b))
  }

  function AfterLoss(s: System, name: Option<nat>, b: seq<byte>, kept: nat): System
    requires kept <= |s.history| && (name.Some? ==> name.value < |s.inodes|)
  {
    System(
      if name.Some? then s.inodes[name.value := File(b, [], {})] else s.inodes,
      name, {name}, Down, s.history[..kept], if s.promised < kept then s.promised else kept)
  }

  /** The surviving file, or its absence, stands for the first `kept` records. */
  ghost predicate StandsFor(md: Medium, s: System, name: Option<nat>, b: seq<byte>, kept: nat) {
    kept <= |s.history| && if name.Some? then Recovers(md, b, s.history[..kept]) else kept == 0
  }

  ghost predicate LosesPower(md: Medium, s: System, t: System, name: Option<nat>, b: seq<byte>, kept: nat) {
    s.process.Down? && Survives(s, name, b) && StandsFor(md, s, name, b, kept) && t == AfterLoss(s, name, b, kept)
  }

  // ---------- Runs ----------

  ghost predicate Next(md: Medium, p: Promise, s: System, t: System) {
    || Creates(s, t)
    || FinishesCreating(s, t)
    || Opens(md, p, s, t)
    || DiesOpening(md, s, t)
    || (exists r :: Writes(md, s, t, r))
    || Acknowledges(md, s, t)
    || Encodes(md, s, t)
    || (exists e :: Checkpoints(md, s, t, e))
    || SyncsTemporary(md, s, t)
    || Renames(s, t)
    || SyncsDirectory(s, t)
    || Resumes(s, t)
    || FailsCheckpoint(s, t)
    || (exists part :: Dies(md, s, t, part))
    || (exists name, b, kept :: LosesPower(md, s, t, name, b, kept))
  }

  ghost predicate IsRun(md: Medium, p: Promise, run: seq<System>) {
    && run != [] && run[0] == Initial
    && forall i | 0 <= i < |run| - 1 :: Link(md, p, run, i)
  }

  ghost predicate Link(md: Medium, p: Promise, run: seq<System>, i: int)
    requires 0 <= i < |run| - 1
  {
    Next(md, p, run[i], run[i + 1])
  }

  /** Nothing but the path's present name can come back, and what an open promises is synced. */
  ghost predicate Settled(md: Medium, p: Promise, s: System) {
    && s.path.Some? && s.path.value < |s.inodes| && s.names == {s.path}
    && (p.Observed? ==> OpenSyncs(md, s.inodes[s.path.value]))
  }

  // ---------- The invariant ----------

  /** Within one process, an encoded snapshot labelled with the current index is current. */
  ghost predicate LabelsIdentify(md: Medium, app: App, encoded: set<Encoded>) {
    forall e <- encoded ::
      e.index <= app.index && (e.index == app.index && e.index != 0 ==> e.payload == md.encode(Installed(SnapshotOf(app))))
  }

  ghost predicate CheckpointInv(md: Medium, s: System)
    requires s.process.Up? && s.process.activity.Checkpointing?
  {
    var a := s.process.activity;
    var temporary := Some(a.temporary);
    && s.process.poisoned && s.process.app.index != 0
    && a.payload == md.encode(Installed(SnapshotOf(s.process.app))) && md.fits(a.payload) && a.temporary < |s.inodes|
    && s.inodes[a.temporary] == (if a.stage.Writing? then EmptyFile else File(md.wrap(a.payload), [], {}))
    && match a.stage
       case Writing => temporary !in s.names
       case Synced => temporary !in s.names
       case Renamed => s.path == temporary && s.names != {s.path}
       case Published => s.path == temporary && s.names == {s.path}
  }

  /** The file is whole, and at least `low` of its records are synced. */
  ghost predicate Sure(md: Medium, file: File, history: seq<Record>, low: nat) {
    exists m: nat :: low <= m && Framed(md, file, history, m, |history|)
  }

  ghost predicate ProcessInv(md: Medium, s: System, low: nat)
    requires s.process.Up?
  {
    var p := s.process;
    && ReplayAll(s.history) == Some(p.app) && p.file < |s.inodes| && s.path.Some?
    && (!p.poisoned ==> s.path == Some(p.file) && Sure(md, s.inodes[p.file], s.history, low))
    && (p.activity.Appending? ==> !p.poisoned && Acceptable(p.app, p.activity.record) && md.Fits(p.activity.record))
    && (p.activity.Checkpointing? ==> CheckpointInv(md, s))
    && LabelsIdentify(md, p.app, p.encoded)
  }

  /** What a name may bring back after a power loss: at least the first `low` records. */
  ghost predicate Named(md: Medium, inodes: seq<File>, history: seq<Record>, name: Option<nat>, low: nat) {
    if name.None? then low == 0
    else name.value < |inodes| && exists m: nat, n: nat :: low <= m && Stands(md, inodes[name.value], history, m, n)
  }

  /** What the path names now: all of the history, at least `low` records of it synced. */
  ghost predicate Reads(md: Medium, inodes: seq<File>, history: seq<Record>, path: Option<nat>, low: nat) {
    if path.None? then history == []
    else path.value < |inodes| && exists m: nat :: low <= m && Stands(md, inodes[path.value], history, m, |history|)
  }

  ghost predicate Inv(md: Medium, s: System, low: nat) {
    && Grown(s.history) && s.promised <= |s.history| && s.path in s.names
    && (forall name <- s.names :: Named(md, s.inodes, s.history, name, low))
    && Reads(md, s.inodes, s.history, s.path, low)
    && (s.process.Creating? ==> s.path.Some? && s.history == [] && s.inodes[s.path.value] == EmptyFile)
    && (s.process.Up? ==> ProcessInv(md, s, low))
  }

  /** What holds beside it when every open found the directory settled. */
  ghost predicate Careful(p: Promise, s: System) {
    && (s.process.Up? && !s.process.poisoned ==> s.names == {Some(s.process.file)})
    && (s.process.Up? && p.Observed? ==> s.promised == |s.history|)
  }

  /** The invariant of all runs, or of those in which every open was settled. */
  ghost predicate Holds(md: Medium, p: Promise, s: System, settled: bool) {
    Inv(md, s, Low(s, settled)) && (settled ==> Careful(p, s))
  }

  function Low(s: System, settled: bool): nat {
    if settled then s.promised else 0
  }

  // ---------- Every step keeps the invariant ----------

  lemma NamedStays(
      md: Medium, inodes: seq<File>, after: seq<File>, history: seq<Record>, more: seq<Record>, name: Option<nat>, low: nat)
    requires Named(md, inodes, history, name, low)
    requires name.Some? ==> name.value < |after| && after[name.value] == inodes[name.value]
    ensures Named(md, after, history + more, name, low)
  {
    if name.Some? {
      var m: nat, n: nat :| low <= m && Stands(md, inodes[name.value], history, m, n);
      StandsStays(md, inodes[name.value], history, more, m, n);
    }
  }

  /** Names of other files bring back what they did, whatever happens to the path's file. */
  lemma NamesStay(
      md: Medium, inodes: seq<File>, after: seq<File>, history: seq<Record>, more: seq<Record>, names: set<Option<nat>>,
      path: Option<nat>, low: nat, high: nat)
    requires forall name <- names :: Named(md, inodes, history, name, low)
    requires high <= low || names == {path}
    requires |inodes| <= |after| && forall i | 0 <= i < |inodes| && Some(i) != path :: after[i] == inodes[i]
    requires path in names ==> Named(md, after, history + more, path, high)
    ensures forall name <- names :: Named(md, after, history + more, name, high)
  {
    forall name <- names ensures Named(md, after, history + more, name, high) {
      if name != path {
        NamedStays(md, inodes, after, history, more, name, low);
      }
    }
  }

  lemma NoMore(history: seq<Record>)
    ensures history + [] == history
  {
  }

  /** A file that stands for the whole history, as the one the path names. */
  lemma PathStands(md: Medium, inodes: seq<File>, history: seq<Record>, file: nat, m: nat, low: nat)
    requires file < |inodes| && low <= m && Stands(md, inodes[file], history, m, |history|)
    ensures Named(md, inodes, history, Some(file), low) && Reads(md, inodes, history, Some(file), low)
  {
  }

  lemma CreatesKeeps(md: Medium, p: Promise, s: System, t: System, settled: bool)
    requires Sound(md) && Holds(md, p, s, settled) && Creates(s, t)
    ensures Holds(md, p, t, settled)
  {
    var file := |s.inodes|;
    assert Exact(md, [], [], 0);
    FreshStands(md, [], [], 0);
    PathStands(md, t.inodes, t.history, file, 0, 0);
    NoMore(s.history);
    NamesStay(md, s.inodes, t.inodes, s.history, [], s.names, Some(file), 0, 0);
  }

  lemma FinishesCreatingKeeps(md: Medium, p: Promise, s: System, t: System, settled: bool)
    requires Sound(md) && Holds(md, p, s, settled) && FinishesCreating(s, t)
    ensures Holds(md, p, t, settled)
  {
    assert Exact(md, [], [], 0);
    FreshStands(md, [], [], 0);
  }

  lemma OpensKeeps(md: Medium, p: Promise, s: System, t: System, settled: bool)
    requires Sound(md) && Holds(md, p, s, settled) && Opens(md, p, s, t) && (settled ==> Settled(md, p, s))
    ensures Holds(md, p, t, settled)
  {
    var path, low := s.path.value, Low(s, settled);
    var m: nat :| low <= m && Stands(md, s.inodes[path], s.history, m, |s.history|);
    var sure := OpenStands(md, s.inodes[path], s.history, m);
    PathStands(md, t.inodes, t.history, path, sure, Low(t, settled));
    NoMore(s.history);
    NamesStay(md, s.inodes, t.inodes, s.history, [], s.names, s.path, low, Low(t, settled));
  }

  lemma DiesOpeningKeeps(md: Medium, p: Promise, s: System, t: System, settled: bool)
    requires Sound(md) && Holds(md, p, s, settled) && DiesOpening(md, s, t)
    ensures Holds(md, p, t, settled)
  {
    var path, low := s.path.value, Low(s, settled);
    var m: nat :| low <= m && Stands(md, s.inodes[path], s.history, m, |s.history|);
    GrownReplays(s.history);
    CutStands(md, s.inodes[path], s.history, m);
    PathStands(md, t.inodes, t.history, path, m, low);
    NoMore(s.history);
    NamesStay(md, s.inodes, t.inodes, s.history, [], s.names, s.path, low, low);
  }

  lemma LabelsStay(md: Medium, app: App, r: Record, encoded: set<Encoded>)
    requires LabelsIdentify(md, app, encoded) && Acceptable(app, r) && (app.index != 0 ==> app.hasApplied)
    ensures ReplayRecord(app, r).Some? && LabelsIdentify(md, ReplayRecord(app, r).value, encoded)
  {
    AcceptedNeverFails(app, r);
  }

  /** Once appended and synced, the file stands for one record more, and all of it is sure. */
  lemma AppendedFile(md: Medium, inodes: seq<File>, history: seq<Record>, file: nat, r: Record, app: App, low: nat)
    requires Sound(md) && ReplayAll(history) == Some(app) && md.Fits(r) && ReplayRecord(app, r).Some?
    requires file < |inodes| && Sure(md, inodes[file], history, low)
    ensures var after := inodes[file := Sync(Write(inodes[file], md.Frame(r)))];
            && Sure(md, after[file], history + [r], |history| + 1)
            && Named(md, after, history + [r], Some(file), |history| + 1)
            && Reads(md, after, history + [r], Some(file), |history| + 1)
  {
    var after := inodes[file := Sync(Write(inodes[file], md.Frame(r)))];
    var m: nat :| low <= m && Framed(md, inodes[file], history, m, |history|);
    AppendStands(md, inodes[file], history, m, r, app);
    PathStands(md, after, history + [r], file, |history| + 1, |history| + 1);
  }

  lemma AcknowledgesNames(md: Medium, p: Promise, s: System, t: System, settled: bool)
    requires Sound(md) && Holds(md, p, s, settled) && Acknowledges(md, s, t)
    ensures forall name <- t.names :: Named(md, t.inodes, t.history, name, Low(t, settled))
    ensures Reads(md, t.inodes, t.history, t.path, Low(t, settled))
    ensures Sure(md, t.inodes[t.process.file], t.history, Low(t, settled))
  {
    var file, r, low := s.process.file, s.process.activity.record, Low(s, settled);
    AppendedFile(md, s.inodes, s.history, file, r, s.process.app, low);
    Lower(md, t.inodes, t.history, file, |t.history|, Low(t, settled));
    NamesStay(md, s.inodes, t.inodes, s.history, [r], s.names, s.path, low, Low(t, settled));
  }

  lemma Lower(md: Medium, inodes: seq<File>, history: seq<Record>, file: nat, high: nat, low: nat)
    requires file < |inodes| && Sure(md, inodes[file], history, high) && low <= high
    ensures Sure(md, inodes[file], history, low)
    ensures Named(md, inodes, history, Some(file), low) && Reads(md, inodes, history, Some(file), low)
  {
    var m: nat :| high <= m && Framed(md, inodes[file], history, m, |history|);
    PathStands(md, inodes, history, file, m, low);
  }

  lemma AcknowledgesProcess(md: Medium, s: System, t: System, low: nat, high: nat)
    requires Sound(md) && Grown(s.history) && Acknowledges(md, s, t) && ProcessInv(md, s, low)
    requires Sure(md, t.inodes[t.process.file], t.history, high)
    ensures Grown(t.history) && ProcessInv(md, t, high)
  {
    var r := s.process.activity.record;
    GrownReplays(s.history);
    GrowsByOne(s.history, r, s.process.app);
    LabelsStay(md, s.process.app, r, s.process.encoded);
  }

  lemma AcknowledgesKeeps(md: Medium, p: Promise, s: System, t: System, settled: bool)
    requires Sound(md) && Holds(md, p, s, settled) && Acknowledges(md, s, t)
    ensures Holds(md, p, t, settled)
  {
    AcknowledgesNames(md, p, s, t, settled);
    AcknowledgesProcess(md, s, t, Low(s, settled), Low(t, settled));
  }

  lemma ReadsStay(
      md: Medium, inodes: seq<File>, after: seq<File>, history: seq<Record>, path: Option<nat>, low: nat)
    requires Reads(md, inodes, history, path, low)
    requires path.Some? ==> path.value < |after| && after[path.value] == inodes[path.value]
    ensures Reads(md, after, history, path, low)
  {
  }

  lemma CheckpointsKeeps(md: Medium, p: Promise, s: System, t: System, e: Encoded, settled: bool)
    requires Sound(md) && Holds(md, p, s, settled) && Checkpoints(md, s, t, e)
    ensures Holds(md, p, t, settled)
  {
    NoMore(s.history);
    NamesStay(md, s.inodes, t.inodes, s.history, [], s.names, Some(|s.inodes|), Low(s, settled), Low(s, settled));
  }

  lemma SyncsTemporaryKeeps(md: Medium, p: Promise, s: System, t: System, settled: bool)
    requires Sound(md) && Holds(md, p, s, settled) && SyncsTemporary(md, s, t)
    ensures Holds(md, p, t, settled)
  {
    SyncedBytes(md.wrap(s.process.activity.payload));
    ReadsStay(md, s.inodes, t.inodes, s.history, s.path, Low(s, settled));
    NoMore(s.history);
    var low := Low(s, settled);
    NamesStay(md, s.inodes, t.inodes, s.history, [], s.names, Some(s.process.activity.temporary), low, low);
  }

  /** The file of a checkpoint stands for the whole history. */
  lemma CheckpointStands(md: Medium, history: seq<Record>, app: App)
    requires Sound(md) && Grown(history) && ReplayAll(history) == Some(app) && app.index != 0
    requires md.Fits(Installed(SnapshotOf(app)))
    ensures Framed(md, File(md.Frame(Installed(SnapshotOf(app))), [], {}), history, |history|, |history|)
  {
    GrownReplays(history);
    assert SnapshotIsRead(md, app) && history[..|history|] == history;
    FreshStands(md, md.Frame(Installed(SnapshotOf(app))), history, |history|);
  }

  lemma RenamesKeeps(md: Medium, p: Promise, s: System, t: System, settled: bool)
    requires Sound(md) && Holds(md, p, s, settled) && Renames(s, t)
    ensures Holds(md, p, t, settled)
  {
    CheckpointStands(md, s.history, s.process.app);
    PathStands(md, t.inodes, t.history, s.process.activity.temporary, |s.history|, Low(s, settled));
    assert s.path in t.names && t.path != s.path;
  }

  lemma ResumesKeeps(md: Medium, p: Promise, s: System, t: System, settled: bool)
    requires Sound(md) && Holds(md, p, s, settled) && Resumes(s, t)
    ensures Holds(md, p, t, settled)
  {
    CheckpointStands(md, s.history, s.process.app);
  }

  /** What the death of a writer leaves of its file. */
  lemma AbandonedFile(md: Medium, inodes: seq<File>, history: seq<Record>, file: nat, r: Record, part: seq<byte>, low: nat)
    requires Sound(md) && md.Fits(r) && part <= md.Frame(r) && part != []
    requires file < |inodes| && Sure(md, inodes[file], history, low)
    ensures var after, more := inodes[file := Write(inodes[file], part)], if part == md.Frame(r) then [r] else [];
            && Named(md, after, history + more, Some(file), low)
            && Reads(md, after, history + more, Some(file), low)
  {
    var after := inodes[file := Write(inodes[file], part)];
    var m: nat :| low <= m && Framed(md, inodes[file], history, m, |history|);
    if part == md.Frame(r) {
      WriteStands(md, inodes[file], history, m, r);
      PathStands(md, after, history + [r], file, m, low);
    } else {
      PartStands(md, inodes[file], history, m, r, part);
      NoMore(history);
      PathStands(md, after, history, file, m, low);
    }
  }

  lemma DiesNames(md: Medium, p: Promise, s: System, t: System, part: seq<byte>, settled: bool)
    requires Sound(md) && Holds(md, p, s, settled) && Dies(md, s, t, part)
    requires s.process.Up? && s.process.activity.Appending? && part != []
    ensures forall name <- t.names :: Named(md, t.inodes, t.history, name, Low(t, settled))
    ensures Reads(md, t.inodes, t.history, t.path, Low(t, settled))
  {
    var file, r, low := s.process.file, s.process.activity.record, Low(s, settled);
    var more := if part == md.Frame(r) then [r] else [];
    AbandonedFile(md, s.inodes, s.history, file, r, part, low);
    NoMore(s.history);
    NamesStay(md, s.inodes, t.inodes, s.history, more, s.names, s.path, low, low);
  }

  lemma DiesWritingKeeps(md: Medium, p: Promise, s: System, t: System, part: seq<byte>, settled: bool)
    requires Sound(md) && Holds(md, p, s, settled) && Dies(md, s, t, part)
    requires s.process.Up? && s.process.activity.Appending? && part != []
    ensures Holds(md, p, t, settled)
  {
    GrowsByOne(s.history, s.process.activity.record, s.process.app);
    DiesNames(md, p, s, t, part, settled);
  }

  lemma DiesKeeps(md: Medium, p: Promise, s: System, t: System, part: seq<byte>, settled: bool)
    requires Sound(md) && Holds(md, p, s, settled) && Dies(md, s, t, part)
    ensures Holds(md, p, t, settled)
  {
    if s.process.Up? && s.process.activity.Appending? {
      if part != [] {
        DiesWritingKeeps(md, p, s, t, part, settled);
      } else {
        NotWritten(md, s);
      }
    }
  }

  lemma NotWritten(md: Medium, s: System)
    requires Sound(md) && s.process.Up? && s.process.activity.Appending? && ProcessInv(md, s, 0)
    ensures md.Frame(s.process.activity.record) != []
  {
    AcceptedNeverFails(s.process.app, s.process.activity.record);
    var m: nat :| Framed(md, s.inodes[s.process.file], s.history, m, |s.history|);
    WholeFile(md, s.inodes[s.process.file], s.history, m, s.process.app);
    assert AppendIsRead(md, Bytes(s.inodes[s.process.file]), s.process.activity.record, s.process.app);
  }

  lemma Survivor(md: Medium, b: seq<byte>, history: seq<Record>, n: nat)
    requires Grown(history) && n <= |history| && Recovers(md, b, history[..n])
    ensures TornOnDisk(md, File(b, [], {}), history[..n], n, n)
  {
    assert history[..n][..n] == history[..n];
  }

  /** Whatever name and bytes survive a power loss, they stand for a part of the history. */
  lemma LossIsCovered(md: Medium, s: System, low: nat, name: Option<nat>, b: seq<byte>) returns (kept: nat)
    requires Sound(md) && Inv(md, s, low) && Survives(s, name, b)
    ensures low <= kept && StandsFor(md, s, name, b, kept)
  {
    assert Named(md, s.inodes, s.history, name, low);
    if name.None? {
      kept := 0;
    } else {
      var m: nat, n: nat :| low <= m && Stands(md, s.inodes[name.value], s.history, m, n);
      GrownReplays(s.history);
      kept := StandsLeaves(md, s.inodes[name.value], s.history, m, n, b);
    }
  }

  lemma LossKeepsPromises(md: Medium, s: System, low: nat, name: Option<nat>, b: seq<byte>, kept: nat)
    requires Sound(md) && Inv(md, s, low) && Survives(s, name, b) && StandsFor(md, s, name, b, kept)
    ensures low <= kept
  {
    var covered := LossIsCovered(md, s, low, name, b);
    if name.Some? {
      StateTellsLength(s.history, kept, covered);
    }
  }

  lemma LosesPowerKeeps(
      md: Medium, p: Promise, s: System, t: System, name: Option<nat>, b: seq<byte>, kept: nat, settled: bool)
    requires Sound(md) && Holds(md, p, s, settled) && LosesPower(md, s, t, name, b, kept)
    ensures Holds(md, p, t, settled) && (settled ==> s.promised <= kept)
  {
    LossKeepsPromises(md, s, Low(s, settled), name, b, kept);
    GrownPrefix(s.history, kept);
    assert t.names == {name};
    if name.Some? {
      Survivor(md, b, s.history, kept);
      PathStands(md, t.inodes, t.history, name.value, kept, Low(t, settled));
    }
  }

  // ---------- Runs ----------

  ghost predicate IsOpen(s: System, t: System) {
    s.process.Down? && t.process.Up?
  }

  lemma NextKeeps(md: Medium, p: Promise, s: System, t: System, settled: bool)
    requires Sound(md) && Holds(md, p, s, settled) && Next(md, p, s, t)
    requires settled && IsOpen(s, t) ==> Settled(md, p, s)
    ensures Holds(md, p, t, settled)
    ensures settled ==> s.promised <= t.promised && s.history[..s.promised] <= t.history
  {
    if Acknowledges(md, s, t) {
      AcknowledgesKeeps(md, p, s, t, settled);
    } else if part :| Dies(md, s, t, part) {
      DiesKeeps(md, p, s, t, part, settled);
    } else if name, b, kept :| LosesPower(md, s, t, name, b, kept) {
      LosesPowerKeeps(md, p, s, t, name, b, kept, settled);
    } else if s.process.Up? {
      WorkKeeps(md, p, s, t, settled);
    } else {
      StartingKeeps(md, p, s, t, settled);
    }
  }

  /** The steps that start a process. */
  lemma StartingKeeps(md: Medium, p: Promise, s: System, t: System, settled: bool)
    requires Sound(md) && Holds(md, p, s, settled)
    requires Creates(s, t) || FinishesCreating(s, t) || Opens(md, p, s, t) || DiesOpening(md, s, t)
    requires settled && IsOpen(s, t) ==> Settled(md, p, s)
    ensures Holds(md, p, t, settled) && t.history == s.history && s.promised <= t.promised
  {
    if Creates(s, t) {
      CreatesKeeps(md, p, s, t, settled);
    } else if FinishesCreating(s, t) {
      FinishesCreatingKeeps(md, p, s, t, settled);
    } else if Opens(md, p, s, t) {
      OpensKeeps(md, p, s, t, settled);
    } else {
      DiesOpeningKeeps(md, p, s, t, settled);
    }
  }

  /** The steps of a process that promise nothing new. */
  lemma WorkKeeps(md: Medium, p: Promise, s: System, t: System, settled: bool)
    requires Sound(md) && Holds(md, p, s, settled)
    requires (exists r :: Writes(md, s, t, r)) || Encodes(md, s, t) || (exists e :: Checkpoints(md, s, t, e)) ||
             SyncsTemporary(md, s, t) || Renames(s, t) || SyncsDirectory(s, t) || Resumes(s, t) || FailsCheckpoint(s, t)
    ensures Holds(md, p, t, settled) && t.history == s.history && t.promised == s.promised
  {
    if e :| Checkpoints(md, s, t, e) {
      CheckpointsKeeps(md, p, s, t, e, settled);
    } else if SyncsTemporary(md, s, t) {
      SyncsTemporaryKeeps(md, p, s, t, settled);
    } else if Renames(s, t) {
      RenamesKeeps(md, p, s, t, settled);
    } else if Resumes(s, t) {
      ResumesKeeps(md, p, s, t, settled);
    } else {
      PlainWorkKeeps(md, p, s, t, settled);
    }
  }

  lemma PlainWorkKeeps(md: Medium, p: Promise, s: System, t: System, settled: bool)
    requires Sound(md) && Holds(md, p, s, settled)
    requires (exists r :: Writes(md, s, t, r)) || Encodes(md, s, t) || SyncsDirectory(s, t) || FailsCheckpoint(s, t)
    ensures Holds(md, p, t, settled) && t.history == s.history && t.promised == s.promised
  {
  }

  /** If this step of the run opens the journal, it finds it settled. */
  ghost predicate OpensSettled(md: Medium, p: Promise, run: seq<System>, i: int)
    requires 0 <= i < |run| - 1
  {
    IsOpen(run[i], run[i + 1]) ==> Settled(md, p, run[i])
  }

  ghost predicate SettledRun(md: Medium, p: Promise, run: seq<System>) {
    forall i | 0 <= i < |run| - 1 :: OpensSettled(md, p, run, i)
  }

  /** The invariant holds in every run, and the stronger one where every open is settled. */
  lemma {:induction false} RunIsSafe(md: Medium, p: Promise, run: seq<System>, i: nat, settled: bool)
    requires Sound(md) && IsRun(md, p, run) && i < |run| && (settled ==> SettledRun(md, p, run))
    ensures Holds(md, p, run[i], settled)
  {
    if i > 0 {
      RunIsSafe(md, p, run, i - 1, settled);
      assert Link(md, p, run, i - 1);
      assert settled ==> OpensSettled(md, p, run, i - 1);
      NextKeeps(md, p, run[i - 1], run[i], settled);
    }
  }

  // ---------- What holds in every run ----------

  /** What is there when the process is down opens, to the state of its history. */
  lemma OpensAgain(md: Medium, p: Promise, s: System) returns (t: System)
    requires Sound(md) && Inv(md, s, 0) && s.process.Down? && s.path.Some?
    ensures Opens(md, p, s, t) && Some(t.process.app) == ReplayAll(s.history)
  {
    var m: nat :| Stands(md, s.inodes[s.path.value], s.history, m, |s.history|);
    var sure := OpenStands(md, s.inodes[s.path.value], s.history, m);
    var file := s.inodes[s.path.value];
    var found := md.read(Bytes(file));
    t := s.(
      inodes := s.inodes[s.path.value := Reopened(file, found.valid)],
      process := Up(found.app, s.path.value, false, Idle, {}),
      promised := if p.Observed? then |s.history| else s.promised);
  }

  /**
  Death of the process, in every run and at every point: opening again succeeds with exactly
  the state before, plus at most the record in flight, entirely or not at all.
  */
  lemma DeathRefinement(md: Medium, p: Promise, run: seq<System>, i: nat, t: System, part: seq<byte>) returns (u: System)
    requires Sound(md) && IsRun(md, p, run) && i < |run| && run[i].process.Up? && Dies(md, run[i], t, part)
    ensures var s := run[i];
            && Some(s.process.app) == ReplayAll(s.history)
            && (t.history == s.history ||
                (s.process.activity.Appending? && t.history == s.history + [s.process.activity.record]))
            && Opens(md, p, t, u) && Some(u.process.app) == ReplayAll(t.history)
  {
    RunIsSafe(md, p, run, i, false);
    DiesKeeps(md, p, run[i], t, part, false);
    u := OpensAgain(md, p, t);
  }

  /**
  Power loss, in every run: whatever name and bytes survive, they stand for a part of the
  history, and if a file survives it opens to the state of that part.
  */
  lemma LossRefinement(md: Medium, p: Promise, run: seq<System>, i: nat, name: Option<nat>, b: seq<byte>)
      returns (kept: nat, t: System)
    requires Sound(md) && IsRun(md, p, run) && i < |run| && run[i].process.Down? && Survives(run[i], name, b)
    ensures LosesPower(md, run[i], t, name, b, kept)
    ensures name.None? ==> kept == 0
    ensures name.Some? ==> exists u :: Opens(md, p, t, u) && Some(u.process.app) == ReplayAll(run[i].history[..kept])
  {
    var s := run[i];
    RunIsSafe(md, p, run, i, false);
    kept := LossIsCovered(md, s, 0, name, b);
    t := AfterLoss(s, name, b, kept);
    LosesPowerKeeps(md, p, s, t, name, b, kept, false);
    if name.Some? {
      var u := OpensAgain(md, p, t);
    }
  }

  /**
  Crash refinement. Where every open found the journal settled, a death at any point followed
  by any power loss leaves exactly the records acknowledged so far, in order, plus at most the
  one in flight, entirely or not at all.
  */
  lemma CrashRefinement(
      md: Medium, run: seq<System>, i: nat, t: System, part: seq<byte>, name: Option<nat>, b: seq<byte>, kept: nat)
    requires Sound(md) && IsRun(md, Observed, run) && SettledRun(md, Observed, run)
    requires i < |run| && run[i].process.Up? && Dies(md, run[i], t, part)
    requires Survives(t, name, b) && StandsFor(md, t, name, b, kept)
    ensures var s := run[i];
            t.history[..kept] == s.history ||
            (s.process.activity.Appending? && t.history[..kept] == s.history + [s.process.activity.record])
  {
    RunIsSafe(md, Observed, run, i, true);
    LossAfterDeath(md, run[i], t, part, name, b, kept);
  }

  lemma LossAfterDeath(md: Medium, s: System, t: System, part: seq<byte>, name: Option<nat>, b: seq<byte>, kept: nat)
    requires Sound(md) && Holds(md, Observed, s, true) && s.process.Up? && Dies(md, s, t, part)
    requires Survives(t, name, b) && StandsFor(md, t, name, b, kept)
    ensures t.history[..kept] == s.history ||
            (s.process.activity.Appending? && t.history[..kept] == s.history + [s.process.activity.record])
  {
    DiesKeeps(md, Observed, s, t, part, true);
    LossKeepsPromises(md, t, t.promised, name, b, kept);
    KeptPart(s.history, t.history, kept);
  }

  lemma KeptPart(before: seq<Record>, after: seq<Record>, kept: nat)
    requires before <= after && |after| <= |before| + 1 && |before| <= kept <= |after|
    ensures after[..kept] == before || after[..kept] == after
  {
  }

  /**
  A checkpoint is invisible at every point at which the process can die, in every run; and
  where every open was settled, at every power loss after it.
  */
  lemma CheckpointIsInvisible(md: Medium, p: Promise, run: seq<System>, i: nat, t: System, u: System, part: seq<byte>)
    requires Sound(md) && IsRun(md, p, run) && i < |run|
    requires run[i].process.Up? && !run[i].process.activity.Appending?
    requires Dies(md, run[i], t, part) && Opens(md, p, t, u)
    ensures u.process.app == run[i].process.app && t.history == run[i].history
    ensures p.Observed? && SettledRun(md, p, run) ==>
              forall name, b, kept | Survives(t, name, b) && StandsFor(md, t, name, b, kept) :: kept == |run[i].history|
  {
    RunIsSafe(md, p, run, i, false);
    DiesKeeps(md, p, run[i], t, part, false);
    var v := OpensAgain(md, p, t);
    if p.Observed? && SettledRun(md, p, run) {
      forall name, b, kept | Survives(t, name, b) && StandsFor(md, t, name, b, kept) ensures kept == |run[i].history| {
        CrashRefinement(md, run, i, t, part, name, b, kept);
      }
    }
  }

  /** A record is acknowledged only by an unpoisoned writer in the file that the path names. */
  lemma NothingIsAcknowledgedElsewhere(md: Medium, p: Promise, run: seq<System>, i: nat, t: System)
    requires Sound(md) && IsRun(md, p, run) && i < |run| && Acknowledges(md, run[i], t)
    ensures !run[i].process.poisoned && run[i].path == Some(run[i].process.file)
    ensures SettledRun(md, p, run) ==> run[i].names == {Some(run[i].process.file)}
  {
    RunIsSafe(md, p, run, i, false);
    if SettledRun(md, p, run) {
      RunIsSafe(md, p, run, i, true);
    }
  }

  /**
  Within one process lifetime a nonzero applied index identifies one application state, so
  the label test alone ensures that a checkpoint writes the current state.
  */
  lemma LabelIdentifiesState(md: Medium, p: Promise, run: seq<System>, i: nat, t: System, e: Encoded)
    requires Sound(md) && IsRun(md, p, run) && i < |run| && Checkpoints(md, run[i], t, e)
    ensures e.payload == md.encode(Installed(SnapshotOf(run[i].process.app)))
    ensures md.Whole(md.wrap(e.payload), run[i].process.app)
  {
    RunIsSafe(md, p, run, i, false);
    GrownReplays(run[i].history);
    assert SnapshotIsRead(md, run[i].process.app);
  }

  // ---------- Which opens are safe ----------

  /** Of what was promised at `i`, something is missing at `j`. */
  ghost predicate Lost(run: seq<System>, i: nat, j: nat) {
    i < j < |run| && run[i].promised <= |run[i].history| && !(run[i].history[..run[i].promised] <= run[j].history)
  }

  ghost predicate Loses(run: seq<System>) {
    exists i, j :: Lost(run, i, j)
  }

  lemma StepKeepsPromises(md: Medium, p: Promise, run: seq<System>, j: nat)
    requires Sound(md) && IsRun(md, p, run) && SettledRun(md, p, run) && j < |run| - 1
    ensures run[j].promised <= |run[j].history| && run[j].promised <= run[j + 1].promised <= |run[j + 1].history|
    ensures run[j].history[..run[j].promised] <= run[j + 1].history
  {
    RunIsSafe(md, p, run, j, true);
    RunIsSafe(md, p, run, j + 1, true);
    assert Link(md, p, run, j) && OpensSettled(md, p, run, j);
    NextKeeps(md, p, run[j], run[j + 1], true);
  }

  lemma {:induction false} PromisedSoFar(md: Medium, p: Promise, run: seq<System>, i: nat, j: nat)
    requires Sound(md) && IsRun(md, p, run) && SettledRun(md, p, run) && i < j < |run|
    ensures run[i].promised <= |run[i].history| && run[i].promised <= run[j].promised <= |run[j].history|
    ensures run[i].history[..run[i].promised] <= run[j].history
  {
    StepKeepsPromises(md, p, run, j - 1);
    if i < j - 1 {
      PromisedSoFar(md, p, run, i, j - 1);
    }
  }

  /**
  Promises are kept: in every run whose opens are all settled, what was acknowledged (or seen,
  if opens promise too) at any time is in the history that every later open recovers.
  */
  lemma PromisesAreKept(md: Medium, p: Promise, run: seq<System>)
    requires Sound(md) && IsRun(md, p, run) && SettledRun(md, p, run)
    ensures !Loses(run)
    ensures forall j | 0 <= j < |run| :: PathRecovers(md, run[j])
  {
    forall i: nat, j: nat ensures !Lost(run, i, j) {
      if i < j < |run| {
        PromisedSoFar(md, p, run, i, j);
      }
    }
    forall j | 0 <= j < |run| ensures PathRecovers(md, run[j]) {
      RunIsSafe(md, p, run, j, false);
      PathStandsForHistory(md, run[j]);
    }
  }

  /** Opening the file that the path names gives the state of the history. */
  ghost predicate PathRecovers(md: Medium, s: System) {
    s.path.Some? ==> s.path.value < |s.inodes| && Recovers(md, Bytes(s.inodes[s.path.value]), s.history)
  }

  lemma PathStandsForHistory(md: Medium, s: System)
    requires Sound(md) && Inv(md, s, 0)
    ensures PathRecovers(md, s)
  {
    if s.path.Some? {
      var m: nat :| Stands(md, s.inodes[s.path.value], s.history, m, |s.history|);
      GrownReplays(s.history);
      StandsReads(md, s.inodes[s.path.value], s.history, m, |s.history|);
      assert s.history[..|s.history|] == s.history;
    }
  }

  /** An entry without a command, the smallest record that is acceptable after `app`. */
  function NextEntry(app: App): Record {
    Entries([Applied(app.index + 1, None, None)])
  }

  ghost predicate CanAppend(md: Medium, history: seq<Record>) {
    ReplayAll(history).Some? && md.Fits(NextEntry(ReplayAll(history).value))
  }

  lemma NextEntryIsAcceptable(app: App)
    ensures Acceptable(app, NextEntry(app)) && ReplayRecord(app, NextEntry(app)).Some?
  {
    AcceptedNeverFails(app, NextEntry(app));
  }

  /** A process that has just opened appends and acknowledges one entry, and dies. */
  lemma AcknowledgesOne(md: Medium, u: System) returns (v: System, w: System, x: System)
    requires Free(u) && !u.process.poisoned && u.process.file < |u.inodes| && md.Fits(NextEntry(u.process.app))
    ensures Writes(md, u, v, NextEntry(u.process.app)) && Acknowledges(md, v, w) && Dies(md, w, x, [])
    ensures w.history == u.history + [NextEntry(u.process.app)] && w.promised == |w.history|
    ensures x == w.(process := Down) && x.path == u.path && x.names == u.names && |x.inodes| == |u.inodes|
    ensures forall i | 0 <= i < |u.inodes| && i != u.process.file :: x.inodes[i] == u.inodes[i]
  {
    var r, file := NextEntry(u.process.app), u.process.file;
    NextEntryIsAcceptable(u.process.app);
    v := u.(process := u.process.(activity := Appending(r)));
    w := v.(
      inodes := v.inodes[file := Sync(Write(v.inodes[file], md.Frame(r)))],
      process := v.process.(app := ReplayRecord(u.process.app, r).value, activity := Idle),
      history := v.history + [r], promised := |v.history| + 1);
    x := w.(process := Down);
  }

  /** Open, append and acknowledge one entry, and die. */
  lemma OpensAndAcknowledges(md: Medium, p: Promise, s: System) returns (u: System, v: System, w: System, x: System)
    requires Sound(md) && Inv(md, s, 0) && s.process.Down? && s.path.Some? && CanAppend(md, s.history)
    ensures Opens(md, p, s, u) && Writes(md, u, v, NextEntry(u.process.app)) && Acknowledges(md, v, w)
    ensures Dies(md, w, x, []) && x == w.(process := Down) && x.names == s.names
    ensures s.history <= w.history && |w.history| == |s.history| + 1 == w.promised
    ensures |x.inodes| == |s.inodes| && forall i | 0 <= i < |s.inodes| && Some(i) != s.path :: x.inodes[i] == s.inodes[i]
  {
    u := OpensAgain(md, p, s);
    v, w, x := AcknowledgesOne(md, u);
  }

  /** A power loss may leave of any file just its synced bytes. */
  lemma SyncedMayBeAll(file: File)
    ensures Leaves(file, file.synced)
  {
    assert LeavesWrites(file, 0, [], file.synced);
  }

  /** Another name comes back, which stands for no more than what was there before. */
  lemma AnotherName(md: Medium, s: System, x: System, name: Option<nat>) returns (b: seq<byte>, kept: nat)
    requires Sound(md) && Inv(md, s, 0) && name in s.names && name != s.path
    requires x.process.Down? && x.names == s.names && s.history <= x.history
    requires |x.inodes| == |s.inodes| && forall i | 0 <= i < |s.inodes| && Some(i) != s.path :: x.inodes[i] == s.inodes[i]
    ensures kept <= |s.history| && Survives(x, name, b) && StandsFor(md, x, name, b, kept)
  {
    assert Named(md, s.inodes, s.history, name, 0);
    b := if name.Some? then s.inodes[name.value].synced else [];
    if name.Some? {
      SyncedMayBeAll(s.inodes[name.value]);
    }
    kept := LossIsCovered(md, s, 0, name, b);
    assert x.history[..kept] == s.history[..kept];
  }

  /** A continuation of a run in which every open but the first step is settled. */
  ghost predicate Continues(md: Medium, p: Promise, run: seq<System>, more: seq<System>) {
    && IsRun(md, p, run + more)
    && forall i | |run| <= i < |run + more| - 1 :: OpensSettled(md, p, run + more, i)
  }

  /** A run without another open from the `n`-th state on. */
  ghost predicate Quiet(md: Medium, p: Promise, run: seq<System>, n: nat) {
    IsRun(md, p, run) && forall i | n <= i < |run| - 1 :: !IsOpenAt(run, i)
  }

  ghost predicate IsOpenAt(run: seq<System>, i: int)
    requires 0 <= i < |run| - 1
  {
    IsOpen(run[i], run[i + 1])
  }

  lemma Extend(md: Medium, p: Promise, run: seq<System>, t: System, n: nat)
    requires Quiet(md, p, run, n) && Next(md, p, run[|run| - 1], t)
    requires |run| <= n || !IsOpen(run[|run| - 1], t)
    ensures Quiet(md, p, run + [t], n)
  {
    var more := run + [t];
    forall i | 0 <= i < |more| - 1 ensures Link(md, p, more, i) {
      if i < |run| - 1 {
        assert Link(md, p, run, i);
      }
    }
    forall i | n <= i < |more| - 1 ensures !IsOpenAt(more, i) {
      if i < |run| - 1 {
        assert !IsOpenAt(run, i);
      }
    }
  }

  lemma ExtendByOpen(md: Medium, p: Promise, run: seq<System>, t: System)
    requires IsRun(md, p, run) && Opens(md, p, run[|run| - 1], t)
    ensures Quiet(md, p, run + [t], |run|)
  {
    Extend(md, p, run, t, |run|);
  }

  lemma ExtendByAppend(md: Medium, p: Promise, run: seq<System>, v: System, w: System, r: Record, n: nat)
    requires Quiet(md, p, run, n) && Writes(md, run[|run| - 1], v, r) && Acknowledges(md, v, w)
    ensures Quiet(md, p, run + [v, w], n)
  {
    Extend(md, p, run, v, n);
    Extend(md, p, run + [v], w, n);
    assert run + [v] + [w] == run + [v, w];
  }

  lemma ExtendByLoss(
      md: Medium, p: Promise, run: seq<System>, x: System, y: System, name: Option<nat>, b: seq<byte>, kept: nat, n: nat)
    requires Quiet(md, p, run, n) && Dies(md, run[|run| - 1], x, []) && LosesPower(md, x, y, name, b, kept)
    ensures Quiet(md, p, run + [x, y], n)
  {
    Extend(md, p, run, x, n);
    Extend(md, p, run + [x], y, n);
    assert run + [x] + [y] == run + [x, y];
  }

  lemma LossContinues(md: Medium, p: Promise, run: seq<System>, more: seq<System>, i: nat)
    requires Quiet(md, p, run + more, |run|)
    requires i < |more| - 1 && more[i].promised == |more[i].history| && |more[|more| - 1].history| < |more[i].history|
    ensures Continues(md, p, run, more) && Loses(run + more)
  {
    var whole := run + more;
    forall k | |run| <= k < |whole| - 1 ensures OpensSettled(md, p, whole, k) {
      assert !IsOpenAt(whole, k);
    }
    assert whole[|run| + i] == more[i] && whole[|whole| - 1] == more[|more| - 1];
    assert Lost(whole, |run| + i, |whole| - 1);
  }

  /** Opening while another name may come back: an acknowledged record can be lost. */
  lemma LostWithItsName(md: Medium, p: Promise, run: seq<System>) returns (more: seq<System>)
    requires Sound(md) && IsRun(md, p, run)
    requires var s := run[|run| - 1]; s.process.Down? && s.path.Some? && s.names != {s.path} && CanAppend(md, s.history)
    ensures Continues(md, p, run, more) && Loses(run + more)
  {
    var s := run[|run| - 1];
    RunIsSafe(md, p, run, |run| - 1, false);
    var name :| name in s.names && name != s.path;
    var r, b, kept;
    more, r, b, kept := CycleLoses(md, p, s, name);
    ExtendByCycle(md, p, run, more, r, name, b, kept);
    LossContinues(md, p, run, more, 2);
  }

  lemma CycleLoses(md: Medium, p: Promise, s: System, name: Option<nat>)
      returns (more: seq<System>, r: Record, b: seq<byte>, kept: nat)
    requires Sound(md) && Inv(md, s, 0) && s.process.Down? && s.path.Some? && CanAppend(md, s.history)
    requires name in s.names && name != s.path
    ensures |more| == 5 && Opens(md, p, s, more[0]) && Writes(md, more[0], more[1], r) && Acknowledges(md, more[1], more[2])
    ensures Dies(md, more[2], more[3], []) && LosesPower(md, more[3], more[4], name, b, kept)
    ensures more[2].promised == |more[2].history| > |more[4].history|
  {
    var u, v, w, x := OpensAndAcknowledges(md, p, s);
    var y;
    b, kept, y := LosesByName(md, s, x, name);
    r := NextEntry(u.process.app);
    more := [u, v, w, x, y];
  }

  lemma LosesByName(md: Medium, s: System, x: System, name: Option<nat>) returns (b: seq<byte>, kept: nat, y: System)
    requires Sound(md) && Inv(md, s, 0) && name in s.names && name != s.path
    requires x.process.Down? && x.names == s.names && s.history <= x.history
    requires |x.inodes| == |s.inodes| && forall i | 0 <= i < |s.inodes| && Some(i) != s.path :: x.inodes[i] == s.inodes[i]
    ensures LosesPower(md, x, y, name, b, kept) && |y.history| <= |s.history|
  {
    b, kept := AnotherName(md, s, x, name);
    y := AfterLoss(x, name, b, kept);
  }

  lemma ExtendByCycle(
      md: Medium, p: Promise, run: seq<System>, more: seq<System>, r: Record, name: Option<nat>, b: seq<byte>, kept: nat)
    requires IsRun(md, p, run) && |more| == 5 && Opens(md, p, run[|run| - 1], more[0])
    requires Writes(md, more[0], more[1], r) && Acknowledges(md, more[1], more[2])
    requires Dies(md, more[2], more[3], []) && LosesPower(md, more[3], more[4], name, b, kept)
    ensures Quiet(md, p, run + more, |run|)
  {
    ExtendByOpen(md, p, run, more[0]);
    ExtendByAppend(md, p, run + [more[0]], more[1], more[2], r, |run|);
    ExtendByLoss(md, p, run + [more[0]] + [more[1], more[2]], more[3], more[4], name, b, kept, |run|);
    assert run + [more[0]] + [more[1], more[2]] + [more[3], more[4]] == run + more;
  }

  /** Opening over unsynced bytes: what the open found can be lost, with nothing done since. */
  lemma LostUnsynced(md: Medium, run: seq<System>) returns (more: seq<System>)
    requires Sound(md) && IsRun(md, Observed, run)
    requires var s := run[|run| - 1];
             s.process.Down? && s.path.Some? && s.names == {s.path} && !Settled(md, Observed, s)
    ensures Continues(md, Observed, run, more) && Loses(run + more)
  {
    var s := run[|run| - 1];
    RunIsSafe(md, Observed, run, |run| - 1, false);
    var u, x, y, b, kept := BytesAreLost(md, s);
    ExtendByOpen(md, Observed, run, u);
    ExtendByLoss(md, Observed, run + [u], x, y, s.path, b, kept, |run|);
    more := [u, x, y];
    assert run + [u] + [x, y] == run + more;
    LossContinues(md, Observed, run, more, 0);
  }

  lemma BytesAreLost(md: Medium, s: System) returns (u: System, x: System, y: System, b: seq<byte>, kept: nat)
    requires Sound(md) && Inv(md, s, 0) && s.process.Down? && s.path.Some? && !OpenSyncs(md, s.inodes[s.path.value])
    ensures Opens(md, Observed, s, u) && Dies(md, u, x, []) && LosesPower(md, x, y, s.path, b, kept)
    ensures u.promised == |u.history| > |y.history|
  {
    u := OpensAgain(md, Observed, s);
    x := u.(process := Down);
    b, kept := UnsyncedIsLost(md, s);
    SyncedMayBeAll(s.inodes[s.path.value]);
    y := AfterLoss(x, s.path, b, kept);
  }

  lemma UnsyncedIsLost(md: Medium, s: System) returns (b: seq<byte>, kept: nat)
    requires Sound(md) && Inv(md, s, 0) && s.path.Some? && !OpenSyncs(md, s.inodes[s.path.value])
    ensures b == s.inodes[s.path.value].synced && kept < |s.history| && StandsFor(md, s, s.path, b, kept)
    ensures md.read(Bytes(s.inodes[s.path.value])).Readable?
    ensures md.read(Bytes(s.inodes[s.path.value])).valid == |Bytes(s.inodes[s.path.value])|
  {
    var file := s.inodes[s.path.value];
    var m: nat :| Stands(md, file, s.history, m, |s.history|);
    GrownReplays(s.history);
    StandsReads(md, file, s.history, m, |s.history|);
    WholeFileIsFramed(md, file, s.history, m);
    b, kept := file.synced, m;
  }

  /**
  Which opens are safe, exactly. After a run whose opens were all settled, the next open is
  settled if and only if no continuation, with settled opens from there on, ever loses
  anything promised. The code does not test this: it syncs the directory only for a file that
  it has just created, and an existing file only if it cut a tail.
  */
  lemma OpenIsSafeExactly(md: Medium, p: Promise, run: seq<System>)
    requires Sound(md) && IsRun(md, p, run) && SettledRun(md, p, run)
    requires var s := run[|run| - 1]; s.process.Down? && s.path.Some? && CanAppend(md, s.history)
    ensures Settled(md, p, run[|run| - 1]) <==> forall more | Continues(md, p, run, more) :: !Loses(run + more)
  {
    var s := run[|run| - 1];
    RunIsSafe(md, p, run, |run| - 1, false);
    if Settled(md, p, s) {
      forall more | Continues(md, p, run, more) ensures !Loses(run + more) {
        SettledThroughout(md, p, run, more);
        PromisesAreKept(md, p, run + more);
      }
    } else if s.names != {s.path} {
      var more := LostWithItsName(md, p, run);
    } else {
      var more := LostUnsynced(md, run);
    }
  }

  lemma SettledThroughout(md: Medium, p: Promise, run: seq<System>, more: seq<System>)
    requires run != [] && SettledRun(md, p, run) && Settled(md, p, run[|run| - 1]) && Continues(md, p, run, more)
    ensures SettledRun(md, p, run + more)
  {
    var whole := run + more;
    forall i | 0 <= i < |whole| - 1 ensures OpensSettled(md, p, whole, i) {
      if i < |run| - 1 {
        assert OpensSettled(md, p, run, i);
      }
    }
  }

  // ---------- Runs that lose an acknowledged record ----------

  /** A process that dies after the rename of a checkpoint, before the directory sync, leaves it unsettled. */
  lemma DeathAfterRename(md: Medium, p: Promise, run: seq<System>, i: nat, t: System, part: seq<byte>)
    requires Sound(md) && IsRun(md, p, run) && i < |run| && Dies(md, run[i], t, part)
    requires run[i].process.Up? && run[i].process.activity.Checkpointing? && run[i].process.activity.stage == Renamed
    ensures !Settled(md, p, t) && t.path.Some? && t.process.Down?
  {
    RunIsSafe(md, p, run, i, false);
  }

  /**
  The shortest such run: the file is created, the process dies before the directory sync, the
  file is opened again, a record is acknowledged, and the power fails.
  */
  lemma AcknowledgedRecordIsLost(md: Medium) returns (run: seq<System>)
    requires Sound(md) && md.Fits(NextEntry(NewApp))
    ensures IsRun(md, Acknowledged, run) && Loses(run)
  {
    var created := System([EmptyFile], Some(0), {None, Some(0)}, Creating, [], 0);
    var down := created.(process := Down);
    var start := [Initial, created, down];
    assert Creates(Initial, created) && Dies(md, created, down, []);
    assert Link(md, Acknowledged, start, 0) && Link(md, Acknowledged, start, 1);
    assert ReplayAll([]) == Some(NewApp) && None in down.names;
    var more := LostWithItsName(md, Acknowledged, start);
    run := start + more;
  }
}
