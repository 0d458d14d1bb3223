/**
What the bytes of a file, and a file with its unsynced writes, stand for: a part of the
history of records that were accepted. What each file operation does to that, and what a
power loss leaves of it.
*/
module Standing {
  import opened Kv
  import opened Journal
  import opened Durable
  import opened Disk
  import opened Media

  // ---------- What bytes stand for ----------

  /** The bytes have an incomplete tail, which opening cuts off. */
  ghost predicate Torn(md: Medium, b: seq<byte>) {
    md.read(b).Readable? && md.read(b).valid < |b|
  }

  /** Opening these bytes gives the state of this history. */
  ghost predicate Recovers(md: Medium, b: seq<byte>, history: seq<Record>) {
    md.read(b).Readable? && Some(md.read(b).app) == ReplayAll(history)
  }

  /** Complete bytes that stand for the first `n` records. */
  ghost predicate Exact(md: Medium, b: seq<byte>, history: seq<Record>, n: nat) {
    n <= |history| && ReplayAll(history[..n]).Some? && md.Whole(b, ReplayAll(history[..n]).value)
  }

  lemma PrefixReplays(history: seq<Record>, n: nat)
    requires ReplayAll(history).Some? && n <= |history|
    ensures ReplayAll(history[..n]).Some?
  {
    if ReplayAll(history[..n]).None? {
      ReplayStops(history, n);
    }
  }

  lemma NextReplays(history: seq<Record>, n: nat)
    requires ReplayAll(history).Some? && n < |history|
    ensures ReplayAll(history[..n]).Some? && ReplayAll(history[..n + 1]).Some?
    ensures ReplayRecord(ReplayAll(history[..n]).value, history[n]) == ReplayAll(history[..n + 1])
  {
    PrefixReplays(history, n);
    PrefixReplays(history, n + 1);
    ReplayOneMore(history[..n], history[n]);
    assert history[..n + 1] == history[..n] + [history[n]];
  }

  lemma ExactGrows(md: Medium, b: seq<byte>, history: seq<Record>, n: nat)
    requires Sound(md) && ReplayAll(history).Some? && n < |history| && Exact(md, b, history, n) && md.Fits(history[n])
    ensures md.Frame(history[n]) != [] && Exact(md, b + md.Frame(history[n]), history, n + 1)
  {
    NextReplays(history, n);
    assert AppendIsRead(md, b, history[n], ReplayAll(history[..n]).value);
  }

  lemma ExactTorn(md: Medium, b: seq<byte>, history: seq<Record>, n: nat, t: seq<byte>)
    requires Sound(md) && Exact(md, b, history, n) && md.torn(t)
    ensures Recovers(md, b + t, history[..n]) && md.read(b + t).valid == |b|
  {
    assert TornIsIgnored(md, b, t, ReplayAll(history[..n]).value);
  }

  // ---------- What a file stands for ----------

  /** The writes are the frames of the records from the `m`-th on. */
  ghost predicate FramesFrom(md: Medium, writes: seq<seq<byte>>, history: seq<Record>, m: nat) {
    && m + |writes| <= |history|
    && (writes == [] ||
        var n := |writes| - 1;
        md.Fits(history[m + n]) && writes[n] == md.Frame(history[m + n]) && FramesFrom(md, writes[..n], history, m))
  }

  ghost predicate StaleAt(md: Medium, file: File, e: (nat, seq<byte>)) {
    md.torn(e.1) && exists k: nat :: k <= |file.writes| && e.0 == |BytesAfter(file, k)|
  }

  /**
  The synced bytes stand for the first `m` records, and the unsynced writes are the frames of
  the next, up to the `n`-th.
  */
  ghost predicate Framed(md: Medium, file: File, history: seq<Record>, m: nat, n: nat) {
    && m <= n && |file.writes| == n - m && Exact(md, file.synced, history, m) && FramesFrom(md, file.writes, history, m)
    && (forall e <- file.stale :: StaleAt(md, file, e))
  }

  /** A file with a torn tail on storage, as a power loss leaves it. */
  ghost predicate TornOnDisk(md: Medium, file: File, history: seq<Record>, m: nat, n: nat) {
    m == n <= |history| && file.writes == [] && file.stale == {} && Recovers(md, file.synced, history[..m])
  }

  /** A file with a partial frame at its end, as the death of its writer leaves it. */
  ghost predicate TornWrite(md: Medium, file: File, history: seq<Record>, m: nat, n: nat) {
    file.writes != [] && Last(file) != [] && md.torn(Last(file)) && Framed(md, WithoutLast(file), history, m, n)
  }

  ghost predicate Stands(md: Medium, file: File, history: seq<Record>, m: nat, n: nat) {
    Framed(md, file, history, m, n) || TornOnDisk(md, file, history, m, n) || TornWrite(md, file, history, m, n)
  }

  lemma {:induction false} FramesAreExact(
      md: Medium, b: seq<byte>, writes: seq<seq<byte>>, history: seq<Record>, m: nat)
    requires Sound(md) && ReplayAll(history).Some? && Exact(md, b, history, m) && FramesFrom(md, writes, history, m)
    ensures Exact(md, b + Joined(writes), history, m + |writes|)
  {
    if writes == [] {
      assert b + Joined(writes) == b;
    } else {
      var n := |writes| - 1;
      FramesAreExact(md, b, writes[..n], history, m);
      Associates(b, Joined(writes[..n]), writes[n]);
      LastIsExact(md, b + Joined(writes[..n]), writes[n], history, m + n);
    }
  }

  lemma Associates(a: seq<byte>, b: seq<byte>, c: seq<byte>)
    ensures a + (b + c) == a + b + c
  {
  }

  lemma LastIsExact(md: Medium, b: seq<byte>, w: seq<byte>, history: seq<Record>, n: nat)
    requires Sound(md) && ReplayAll(history).Some? && n < |history| && Exact(md, b, history, n)
    requires md.Fits(history[n]) && w == md.Frame(history[n])
    ensures Exact(md, b + w, history, n + 1)
  {
    ExactGrows(md, b, history, n);
  }

  lemma {:induction false} FramesBefore(md: Medium, writes: seq<seq<byte>>, history: seq<Record>, m: nat, k: nat)
    requires FramesFrom(md, writes, history, m) && k <= |writes|
    ensures FramesFrom(md, writes[..k], history, m)
    ensures k < |writes| ==> md.Fits(history[m + k]) && writes[k] == md.Frame(history[m + k])
    decreases |writes|
  {
    if k < |writes| - 1 {
      FramesBefore(md, writes[..|writes| - 1], history, m, k);
      assert writes[..|writes| - 1][..k] == writes[..k];
    } else if k == |writes| {
      assert writes[..k] == writes;
    }
  }

  lemma FramedReads(md: Medium, file: File, history: seq<Record>, m: nat, n: nat, k: nat)
    requires Sound(md) && ReplayAll(history).Some? && Framed(md, file, history, m, n) && k <= n - m
    ensures Exact(md, BytesAfter(file, k), history, m + k)
  {
    FramesBefore(md, file.writes, history, m, k);
    FramesAreExact(md, file.synced, file.writes[..k], history, m);
  }

  lemma FramedReadsAll(md: Medium, file: File, history: seq<Record>, m: nat, n: nat)
    requires Sound(md) && ReplayAll(history).Some? && Framed(md, file, history, m, n)
    ensures Exact(md, Bytes(file), history, n)
  {
    FramesAreExact(md, file.synced, file.writes, history, m);
  }

  lemma TornWriteReads(md: Medium, file: File, history: seq<Record>, m: nat, n: nat)
    requires Sound(md) && ReplayAll(history).Some? && TornWrite(md, file, history, m, n)
    ensures Recovers(md, Bytes(file), history[..n])
    ensures md.read(Bytes(file)).valid == |Bytes(WithoutLast(file))| < |Bytes(file)|
  {
    var front := WithoutLast(file);
    FramedReadsAll(md, front, history, m, n);
    assert Bytes(file) == Bytes(front) + Last(file);
    ExactTorn(md, Bytes(front), history, n, Last(file));
  }

  /** A file reads as what it stands for. */
  lemma StandsReads(md: Medium, file: File, history: seq<Record>, m: nat, n: nat)
    requires Sound(md) && ReplayAll(history).Some? && Stands(md, file, history, m, n)
    ensures n <= |history| && Recovers(md, Bytes(file), history[..n]) && md.read(Bytes(file)).valid <= |Bytes(file)|
  {
    if Framed(md, file, history, m, n) {
      FramedReadsAll(md, file, history, m, n);
    } else if TornWrite(md, file, history, m, n) {
      TornWriteReads(md, file, history, m, n);
    } else {
      assert Bytes(file) == file.synced;
      assert RestIsTorn(md, file.synced);
    }
  }

  // ---------- What a power loss leaves of it ----------

  /** Complete bytes and a part of the next frame stand for one record more, or not. */
  lemma PartRecovers(md: Medium, b: seq<byte>, history: seq<Record>, n: nat, x: seq<byte>)
    requires Sound(md) && ReplayAll(history).Some? && n < |history| && md.Fits(history[n])
    requires Exact(md, b, history, n) && x <= md.Frame(history[n])
    ensures Recovers(md, b + x, history[..if x == md.Frame(history[n]) then n + 1 else n])
  {
    if x == md.Frame(history[n]) {
      ExactGrows(md, b, history, n);
    } else {
      assert PartIsTorn(md, history[n], x);
      ExactTorn(md, b, history, n, x);
    }
  }

  lemma WritesLeave(md: Medium, file: File, history: seq<Record>, m: nat, n: nat, k: nat, x: seq<byte>, b: seq<byte>)
      returns (j: nat)
    requires Sound(md) && ReplayAll(history).Some? && Framed(md, file, history, m, n) && LeavesWrites(file, k, x, b)
    ensures m <= j <= n && Recovers(md, b, history[..j])
  {
    FramedReads(md, file, history, m, n, k);
    if x == [] || AllZero(x) {
      j := m + k;
      assert ZerosAreTorn(md, x);
      ExactTorn(md, BytesAfter(file, k), history, j, x);
    } else {
      j := if x == file.writes[k] then m + k + 1 else m + k;
      FramesBefore(md, file.writes, history, m, k);
      PartRecovers(md, BytesAfter(file, k), history, m + k, x);
    }
  }

  lemma TailLeaves(md: Medium, file: File, history: seq<Record>, m: nat, n: nat, p: nat, d: seq<byte>, x: seq<byte>)
      returns (j: nat)
    requires Sound(md) && ReplayAll(history).Some? && Framed(md, file, history, m, n) && (p, d) in file.stale && x <= d
    ensures m <= j <= n && p <= |Bytes(file)| && Recovers(md, Bytes(file)[..p] + x, history[..j])
  {
    assert StaleAt(md, file, (p, d));
    var k: nat :| k <= |file.writes| && p == |BytesAfter(file, k)|;
    j := m + k;
    ReadsPrefix(file, k);
    FramedReads(md, file, history, m, n, k);
    assert TornStaysTorn(md, d, x);
    ExactTorn(md, BytesAfter(file, k), history, j, x);
  }

  /** Whatever a power loss leaves of whole frames stands for some of their records. */
  lemma FramedLeaves(md: Medium, file: File, history: seq<Record>, m: nat, n: nat, b: seq<byte>) returns (j: nat)
    requires Sound(md) && ReplayAll(history).Some? && Framed(md, file, history, m, n) && Leaves(file, b)
    ensures m <= j <= n && Recovers(md, b, history[..j])
  {
    if k: nat, x :| LeavesWrites(file, k, x, b) {
      j := WritesLeave(md, file, history, m, n, k, x, b);
    } else {
      var p: nat, d, x :| LeavesTail(file, p, d, x, b);
      j := TailLeaves(md, file, history, m, n, p, d, x);
    }
  }

  /** What is left of a file with a partial frame: of its whole frames, or they and a torn part. */
  lemma LeavesLast(md: Medium, file: File, b: seq<byte>)
    requires Sound(md) && file.writes != [] && Leaves(file, b) && md.torn(Last(file))
    requires forall e <- file.stale :: StaleAt(md, WithoutLast(file), e)
    ensures Leaves(WithoutLast(file), b) || exists y :: md.torn(y) && b == Bytes(WithoutLast(file)) + y
  {
    var front := WithoutLast(file);
    if k: nat, x :| LeavesWrites(file, k, x, b) {
      if k < |front.writes| {
        assert file.writes[..k] == front.writes[..k];
        assert LeavesWrites(front, k, x, b);
      } else {
        LastPart(md, file, k, x, b);
      }
    } else {
      var p: nat, d, x :| LeavesTail(file, p, d, x, b);
      TailBeforeLast(md, file, p, d, x, b);
    }
  }

  lemma TailBeforeLast(md: Medium, file: File, p: nat, d: seq<byte>, x: seq<byte>, b: seq<byte>)
    requires file.writes != [] && LeavesTail(file, p, d, x, b) && StaleAt(md, WithoutLast(file), (p, d))
    ensures LeavesTail(WithoutLast(file), p, d, x, b)
  {
    var front := WithoutLast(file);
    var k: nat :| k <= |front.writes| && p == |BytesAfter(front, k)|;
    ReadsPrefix(front, k);
    assert Bytes(file) == Bytes(front) + Last(file);
  }

  lemma LastPart(md: Medium, file: File, k: nat, x: seq<byte>, b: seq<byte>)
    requires Sound(md) && LeavesWrites(file, k, x, b) && file.writes != [] && |file.writes| - 1 <= k
    requires md.torn(Last(file))
    ensures exists y :: md.torn(y) && b == Bytes(WithoutLast(file)) + y
  {
    var front := WithoutLast(file);
    if k == |front.writes| {
      assert file.writes[..k] == front.writes && b == Bytes(front) + x;
      assert TornStaysTorn(md, Last(file), x) && ZerosAreTorn(md, x);
    } else {
      assert file.writes[..k] == file.writes && b == Bytes(front) + Last(file);
    }
  }

  lemma TornWriteLeaves(md: Medium, file: File, history: seq<Record>, m: nat, n: nat, b: seq<byte>) returns (j: nat)
    requires Sound(md) && ReplayAll(history).Some? && TornWrite(md, file, history, m, n) && Leaves(file, b)
    ensures m <= j <= n && Recovers(md, b, history[..j])
  {
    var front := WithoutLast(file);
    LeavesLast(md, file, b);
    if Leaves(front, b) {
      j := FramedLeaves(md, front, history, m, n, b);
    } else {
      var y :| md.torn(y) && b == Bytes(front) + y;
      j := n;
      FramedReadsAll(md, front, history, m, n);
      ExactTorn(md, Bytes(front), history, n, y);
    }
  }

  /** A power loss leaves of every file something that stands for a part of its records. */
  lemma StandsLeaves(md: Medium, file: File, history: seq<Record>, m: nat, n: nat, b: seq<byte>) returns (j: nat)
    requires Sound(md) && ReplayAll(history).Some? && Stands(md, file, history, m, n) && Leaves(file, b)
    ensures m <= j <= n <= |history| && Recovers(md, b, history[..j])
  {
    if Framed(md, file, history, m, n) {
      j := FramedLeaves(md, file, history, m, n, b);
    } else if TornWrite(md, file, history, m, n) {
      j := TornWriteLeaves(md, file, history, m, n, b);
    } else {
      j := m;
      var k: nat, x :| LeavesWrites(file, k, x, b);
      assert b == file.synced;
    }
  }

  // ---------- Histories of accepted records ----------

  /** Every record was acceptable when it was added. */
  ghost predicate Grown(history: seq<Record>) {
    history == [] ||
    (var n := |history| - 1;
     && Grown(history[..n]) && ReplayAll(history[..n]).Some?
     && Acceptable(ReplayAll(history[..n]).value, history[n]))
  }

  lemma {:induction false} GrownReplays(history: seq<Record>)
    requires Grown(history)
    ensures ReplayAll(history).Some?
    ensures var app := ReplayAll(history).value; (app.hasApplied <==> history != []) && (app.index != 0 ==> app.hasApplied)
  {
    if history != [] {
      var n := |history| - 1;
      GrownReplays(history[..n]);
      AcceptedNeverFails(ReplayAll(history[..n]).value, history[n]);
    }
  }

  lemma GrowsByOne(history: seq<Record>, r: Record, app: App)
    requires Grown(history) && ReplayAll(history) == Some(app) && Acceptable(app, r)
    ensures Grown(history + [r]) && ReplayRecord(app, r).Some? && ReplayAll(history + [r]) == ReplayRecord(app, r)
  {
    assert (history + [r])[..|history|] == history;
    AcceptedNeverFails(app, r);
    ReplayOneMore(history, r);
  }

  lemma {:induction false} GrownPrefix(history: seq<Record>, n: nat)
    requires Grown(history) && n <= |history|
    ensures Grown(history[..n])
    decreases |history|
  {
    if n < |history| {
      GrownPrefix(history[..|history| - 1], n);
      assert history[..|history| - 1][..n] == history[..n];
    } else {
      assert history[..n] == history;
    }
  }

  lemma {:induction false} StatesRise(history: seq<Record>, i: nat, j: nat)
    requires Grown(history) && i < j <= |history|
    ensures ReplayAll(history[..i]).Some? && ReplayAll(history[..j]).Some?
    ensures var a, b := ReplayAll(history[..i]).value, ReplayAll(history[..j]).value;
            b.hasApplied && (a.hasApplied ==> a.index < b.index)
  {
    var k := j - 1;
    GrownPrefix(history, j);
    GrownPrefix(history, k);
    GrownReplays(history[..j]);
    GrownReplays(history[..k]);
    assert history[..j][..k] == history[..k];
    AcceptedNeverFails(ReplayAll(history[..k]).value, history[k]);
    if i < k {
      StatesRise(history, i, k);
    }
  }

  /** Different parts of a history have different states. */
  lemma StateTellsLength(history: seq<Record>, i: nat, j: nat)
    requires Grown(history) && i <= |history| && j <= |history| && ReplayAll(history[..i]) == ReplayAll(history[..j])
    ensures i == j
  {
    if i < j {
      StatesRise(history, i, j);
    } else if j < i {
      StatesRise(history, j, i);
    }
  }

  // ---------- File operations ----------

  /** What opening leaves of a file: only a torn tail is cut, and only then is it synced. */
  function Reopened(file: File, valid: nat): File
    requires valid <= |Bytes(file)|
  {
    if valid < |Bytes(file)| then Sync(Cut(file, valid)) else file
  }

  /** Once opened, the file holds no unsynced bytes. */
  ghost predicate OpenSyncs(md: Medium, file: File) {
    file.writes == [] || Torn(md, Bytes(file))
  }

  lemma {:induction false} FramesStay(
      md: Medium, writes: seq<seq<byte>>, history: seq<Record>, more: seq<Record>, m: nat)
    requires FramesFrom(md, writes, history, m)
    ensures FramesFrom(md, writes, history + more, m)
  {
    if writes != [] {
      FramesStay(md, writes[..|writes| - 1], history, more, m);
    }
  }

  lemma FramedStays(md: Medium, file: File, history: seq<Record>, more: seq<Record>, m: nat, n: nat)
    requires Framed(md, file, history, m, n)
    ensures Framed(md, file, history + more, m, n)
  {
    FramesStay(md, file.writes, history, more, m);
    assert (history + more)[..m] == history[..m];
  }

  lemma StandsStays(md: Medium, file: File, history: seq<Record>, more: seq<Record>, m: nat, n: nat)
    requires Stands(md, file, history, m, n)
    ensures Stands(md, file, history + more, m, n)
  {
    if Framed(md, file, history, m, n) {
      FramedStays(md, file, history, more, m, n);
    } else if TornWrite(md, file, history, m, n) {
      FramedStays(md, WithoutLast(file), history, more, m, n);
    } else {
      assert (history + more)[..m] == history[..m];
    }
  }

  lemma FreshStands(md: Medium, b: seq<byte>, history: seq<Record>, n: nat)
    requires Exact(md, b, history, n)
    ensures Framed(md, File(b, [], {}), history, n, n)
  {
  }

  lemma SyncedBytes(b: seq<byte>)
    ensures Sync(Write(EmptyFile, b)) == File(b, [], {})
  {
    WriteReads(EmptyFile, b);
    assert Bytes(EmptyFile) + b == b;
  }

  lemma WholeIsExact(md: Medium, b: seq<byte>, history: seq<Record>, app: App)
    requires ReplayAll(history) == Some(app) && md.Whole(b, app)
    ensures Exact(md, b, history, |history|)
  {
    assert history[..|history|] == history;
  }

  lemma ExactAppends(md: Medium, b: seq<byte>, history: seq<Record>, r: Record, app: App)
    requires Sound(md) && ReplayAll(history) == Some(app) && md.Whole(b, app) && md.Fits(r) && ReplayRecord(app, r).Some?
    ensures md.Frame(r) != [] && Exact(md, b + md.Frame(r), history + [r], |history| + 1)
  {
    assert AppendIsRead(md, b, r, app);
    ReplayOneMore(history, r);
    WholeIsExact(md, b + md.Frame(r), history + [r], ReplayRecord(app, r).value);
  }

  /** Appending and syncing leaves a file without unsynced bytes that stands for one record more. */
  lemma AppendStands(md: Medium, file: File, history: seq<Record>, m: nat, r: Record, app: App)
    requires Sound(md) && ReplayAll(history) == Some(app) && Framed(md, file, history, m, |history|)
    requires md.Fits(r) && ReplayRecord(app, r).Some?
    ensures Framed(md, Sync(Write(file, md.Frame(r))), history + [r], |history| + 1, |history| + 1)
  {
    WholeFile(md, file, history, m, app);
    ExactAppends(md, Bytes(file), history, r, app);
    WriteReads(file, md.Frame(r));
    FreshStands(md, Bytes(file) + md.Frame(r), history + [r], |history| + 1);
  }

  lemma WholeFile(md: Medium, file: File, history: seq<Record>, m: nat, app: App)
    requires Sound(md) && ReplayAll(history) == Some(app) && Framed(md, file, history, m, |history|)
    ensures md.Whole(Bytes(file), app)
  {
    FramedReadsAll(md, file, history, m, |history|);
    assert history[..|history|] == history;
  }

  lemma StaleStays(md: Medium, file: File, w: seq<byte>, e: (nat, seq<byte>))
    requires StaleAt(md, file, e)
    ensures StaleAt(md, Write(file, w), e)
  {
    var k: nat :| k <= |file.writes| && e.0 == |BytesAfter(file, k)|;
    assert Write(file, w).writes[..k] == file.writes[..k];
    assert e.0 == |BytesAfter(Write(file, w), k)|;
  }

  /** A complete frame that is not synced stands for one record more, which is not sure. */
  lemma WriteStands(md: Medium, file: File, history: seq<Record>, m: nat, r: Record)
    requires Framed(md, file, history, m, |history|) && md.Fits(r)
    ensures Framed(md, Write(file, md.Frame(r)), history + [r], m, |history| + 1)
  {
    var more := Write(file, md.Frame(r));
    FramedStays(md, file, history, [r], m, |history|);
    assert more.writes[..|more.writes| - 1] == file.writes;
    forall e <- more.stale ensures StaleAt(md, more, e) {
      StaleStays(md, file, md.Frame(r), e);
    }
  }

  /** A part of a frame leaves what the file stands for. */
  lemma PartStands(md: Medium, file: File, history: seq<Record>, m: nat, r: Record, part: seq<byte>)
    requires Sound(md) && Framed(md, file, history, m, |history|) && md.Fits(r)
    requires part != [] && part <= md.Frame(r) && part != md.Frame(r)
    ensures TornWrite(md, Write(file, part), history, m, |history|)
  {
    assert PartIsTorn(md, r, part);
    WriteReads(file, part);
  }

  /** Cutting off a torn tail leaves whole records; until the sync it may come back. */
  lemma CutStands(md: Medium, file: File, history: seq<Record>, m: nat)
    requires Sound(md) && ReplayAll(history).Some? && Stands(md, file, history, m, |history|)
    requires md.read(Bytes(file)).Readable? && md.read(Bytes(file)).valid < |Bytes(file)|
    ensures Framed(md, Cut(file, md.read(Bytes(file)).valid), history, m, |history|)
  {
    var v := md.read(Bytes(file)).valid;
    if Framed(md, file, history, m, |history|) {
      FramedReadsAll(md, file, history, m, |history|);
    } else if TornWrite(md, file, history, m, |history|) {
      TornWriteReads(md, file, history, m, |history|);
      CutWrite(md, file, history, m);
    } else {
      CutDisk(md, file, history, m);
    }
  }

  lemma CutWrite(md: Medium, file: File, history: seq<Record>, m: nat)
    requires TornWrite(md, file, history, m, |history|)
    ensures |Bytes(WithoutLast(file))| <= |Bytes(file)|
    ensures Framed(md, Cut(file, |Bytes(WithoutLast(file))|), history, m, |history|)
  {
    CutLast(file);
    var front := WithoutLast(file);
    var after := Cut(file, |Bytes(front)|);
    forall e <- after.stale ensures StaleAt(md, after, e) {
      if e in front.stale {
        StaleMoves(md, front, after, e);
      } else {
        assert after.writes[..|after.writes|] == after.writes;
        assert e.0 == |BytesAfter(after, |after.writes|)|;
      }
    }
  }

  lemma StaleMoves(md: Medium, file: File, after: File, e: (nat, seq<byte>))
    requires StaleAt(md, file, e) && after == file.(stale := after.stale)
    ensures StaleAt(md, after, e)
  {
    var k: nat :| k <= |file.writes| && e.0 == |BytesAfter(file, k)|;
    assert e.0 == |BytesAfter(after, k)|;
  }

  lemma CutDisk(md: Medium, file: File, history: seq<Record>, m: nat)
    requires Sound(md) && ReplayAll(history).Some? && TornOnDisk(md, file, history, m, |history|)
    requires md.read(Bytes(file)).Readable? && md.read(Bytes(file)).valid < |Bytes(file)|
    ensures Framed(md, Cut(file, md.read(Bytes(file)).valid), history, m, |history|)
  {
    var v := md.read(Bytes(file)).valid;
    assert Bytes(file) == file.synced && RestIsTorn(md, file.synced);
    var after := Cut(file, v);
    assert after.stale == {(v, file.synced[v..])};
    forall e <- after.stale ensures StaleAt(md, after, e) {
      assert e.0 == |BytesAfter(after, 0)|;
    }
  }

  /** Opening leaves whole records, all synced if a tail was cut or nothing was unsynced. */
  lemma OpenStands(md: Medium, file: File, history: seq<Record>, m: nat) returns (sure: nat)
    requires Sound(md) && Grown(history) && Stands(md, file, history, m, |history|)
    ensures md.read(Bytes(file)).Readable? && md.read(Bytes(file)).valid <= |Bytes(file)|
    ensures Some(md.read(Bytes(file)).app) == ReplayAll(history)
    ensures m <= sure && Framed(md, Reopened(file, md.read(Bytes(file)).valid), history, sure, |history|)
    ensures OpenSyncs(md, file) ==> sure == |history|
  {
    GrownReplays(history);
    assert history[..|history|] == history;
    StandsReads(md, file, history, m, |history|);
    var v := md.read(Bytes(file)).valid;
    if v < |Bytes(file)| {
      sure := |history|;
      assert RestIsTorn(md, Bytes(file));
      CutReads(file, v);
      FreshStands(md, Bytes(file)[..v], history, sure);
    } else {
      sure := m;
      WholeFileIsFramed(md, file, history, m);
    }
  }

  lemma WholeFileIsFramed(md: Medium, file: File, history: seq<Record>, m: nat)
    requires Sound(md) && ReplayAll(history).Some? && Stands(md, file, history, m, |history|)
    requires md.read(Bytes(file)).Readable? && md.read(Bytes(file)).valid == |Bytes(file)|
    ensures Framed(md, file, history, m, |history|)
    ensures OpenSyncs(md, file) ==> m == |history|
  {
    if TornWrite(md, file, history, m, |history|) {
      TornWriteReads(md, file, history, m, |history|);
    } else if TornOnDisk(md, file, history, m, |history|) {
      assert Bytes(file) == file.synced;
    }
  }
}
