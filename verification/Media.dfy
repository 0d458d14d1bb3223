/**
What recovery relies on at the byte level, as an interface: how records are written, what is
read back, and which tails are ignored. The journal, with any checksum and any codec that
decodes what it encodes, is proved to be such a medium.
*/
module Media {
  import opened Kv
  import opened Journal
  import opened Durable

  /** What opening a file finds: the application that its records replay to, and their length. */
  datatype Reading = Refused | Readable(app: App, valid: nat)

  /** The byte level: how records are written, and what is read back. */
  datatype Medium = Medium(
    encode: Record -> seq<byte>,
    wrap: seq<byte> -> seq<byte>,
    fits: seq<byte> -> bool,
    torn: seq<byte> -> bool,
    read: seq<byte> -> Reading)
  {
    function Frame(r: Record): seq<byte> {
      wrap(encode(r))
    }

    predicate Fits(r: Record) {
      fits(encode(r))
    }

    /** The bytes are read to their end. */
    predicate Whole(b: seq<byte>, a: App) {
      read(b) == Readable(a, |b|)
    }
  }

  /** What recovery relies on. */
  ghost predicate Sound(md: Medium) {
    && (forall b, r, a :: AppendIsRead(md, b, r, a))
    && (forall b, t, a :: TornIsIgnored(md, b, t, a))
    && (forall b :: RestIsTorn(md, b))
    && (forall r, x :: PartIsTorn(md, r, x))
    && (forall t, x :: TornStaysTorn(md, t, x))
    && (forall x :: ZerosAreTorn(md, x))
    && (forall a :: SnapshotIsRead(md, a))
    && md.Whole([], NewApp)
  }

  /** A frame behind complete bytes adds its record. */
  ghost predicate AppendIsRead(md: Medium, b: seq<byte>, r: Record, a: App) {
    md.Fits(r) && md.Whole(b, a) && ReplayRecord(a, r).Some? ==>
      md.Frame(r) != [] && md.Whole(b + md.Frame(r), ReplayRecord(a, r).value)
  }

  ghost predicate TornIsIgnored(md: Medium, b: seq<byte>, t: seq<byte>, a: App) {
    md.Whole(b, a) && md.torn(t) ==> md.read(b + t) == Readable(a, |b|)
  }

  /** What is not read is a torn tail of complete bytes. */
  ghost predicate RestIsTorn(md: Medium, b: seq<byte>) {
    md.read(b).Readable? ==>
      var v := md.read(b).valid;
      v <= |b| && md.Whole(b[..v], md.read(b).app) && md.torn(b[v..])
  }

  ghost predicate PartIsTorn(md: Medium, r: Record, x: seq<byte>) {
    md.Fits(r) && x <= md.Frame(r) && x != md.Frame(r) ==> md.torn(x)
  }

  ghost predicate TornStaysTorn(md: Medium, t: seq<byte>, x: seq<byte>) {
    md.torn(t) && x <= t ==> md.torn(x)
  }

  ghost predicate ZerosAreTorn(md: Medium, x: seq<byte>) {
    AllZero(x) ==> md.torn(x)
  }

  /** The frame of a snapshot, alone, stands for its state. */
  ghost predicate SnapshotIsRead(md: Medium, a: App) {
    a.index != 0 && a.hasApplied && md.Fits(Installed(SnapshotOf(a))) ==>
      md.Whole(md.Frame(Installed(SnapshotOf(a))), a)
  }

  function ReadAll(f: Format<Record>, b: seq<byte>): Reading {
    match Scan(f, b)
    case Rejected => Refused
    case Opened(records, valid) =>
      var app := ReplayAll(records);
      if app.None? then Refused else Readable(app.value, valid)
  }

  /** The journal as a medium. */
  function JournalMedium(f: Format<Record>): Medium {
    Medium(
      f.encode, (b: seq<byte>) => if Fits(b) then Frame(f, b) else [], (b: seq<byte>) => Fits(b),
      (b: seq<byte>) => Torn(b), (b: seq<byte>) => ReadAll(f, b))
  }

  lemma ReplayOneMore(history: seq<Record>, r: Record)
    requires ReplayAll(history).Some?
    ensures ReplayAll(history + [r]) == ReplayRecord(ReplayAll(history).value, r)
  {
    assert (history + [r])[..|history|] == history;
  }

  lemma FrameAlone(f: Format<Record>, r: Record)
    requires Faithful(f) && Fits(f.encode(r))
    ensures Scan(f, Frame(f, f.encode(r))) == Opened([r], 8 + |f.encode(r)|)
  {
    FrameIsRead(f, f.encode(r), []);
    assert Frame(f, f.encode(r)) + [] == Frame(f, f.encode(r));
    assert f.decode(f.encode(r)) == Some(r);
  }

  lemma AppendRecovers(f: Format<Record>, b: seq<byte>, r: Record, a: App)
    requires Faithful(f) && Fits(f.encode(r)) && ReadAll(f, b) == Readable(a, |b|) && ReplayRecord(a, r).Some?
    ensures var w := b + Frame(f, f.encode(r)); ReadAll(f, w) == Readable(ReplayRecord(a, r).value, |w|)
  {
    ScanExtends(f, b, Frame(f, f.encode(r)));
    FrameAlone(f, r);
    ReplayOneMore(Scan(f, b).records, r);
  }

  lemma TornRecovers(f: Format<Record>, b: seq<byte>, t: seq<byte>, a: App)
    requires ReadAll(f, b) == Readable(a, |b|) && Torn(t)
    ensures ReadAll(f, b + t) == Readable(a, |b|)
  {
    RecoveryIsExact(f, b, t);
  }

  lemma CutRecovers(f: Format<Record>, b: seq<byte>)
    requires ReadAll(f, b).Readable?
    ensures var v := ReadAll(f, b).valid;
            v <= |b| && ReadAll(f, b[..v]) == ReadAll(f, b) && Torn(b[v..])
  {
    OpenIsIdempotent(f, b);
    var v := Scan(f, b).valid;
    assert b == b[..v] + b[v..];
    RecoveryIsExact(f, b[..v], b[v..]);
  }

  lemma CheckpointRecovers(f: Format<Record>, a: App)
    requires Faithful(f) && a.index != 0 && a.hasApplied && Fits(f.encode(Installed(SnapshotOf(a))))
    ensures var b := Frame(f, f.encode(Installed(SnapshotOf(a)))); ReadAll(f, b) == Readable(a, |b|)
  {
    FrameAlone(f, Installed(SnapshotOf(a)));
    SnapshotStandsForState(a);
  }

  lemma PartOfTornIsTorn(t: seq<byte>, x: seq<byte>)
    requires Torn(t) && x <= t
    ensures Torn(x)
  {
    if |x| >= 8 {
      assert x[..4] == t[..4];
    }
  }

  lemma JournalAppends(f: Format<Record>, b: seq<byte>, r: Record, a: App)
    requires Faithful(f)
    ensures AppendIsRead(JournalMedium(f), b, r, a)
  {
    if Fits(f.encode(r)) && ReadAll(f, b) == Readable(a, |b|) && ReplayRecord(a, r).Some? {
      AppendRecovers(f, b, r, a);
    }
  }

  lemma JournalIgnores(f: Format<Record>, b: seq<byte>, t: seq<byte>, a: App)
    ensures TornIsIgnored(JournalMedium(f), b, t, a) && RestIsTorn(JournalMedium(f), b)
  {
    if ReadAll(f, b) == Readable(a, |b|) && Torn(t) {
      TornRecovers(f, b, t, a);
    }
    if ReadAll(f, b).Readable? {
      CutRecovers(f, b);
    }
  }

  lemma JournalTears(f: Format<Record>, r: Record, t: seq<byte>, x: seq<byte>)
    ensures PartIsTorn(JournalMedium(f), r, x) && TornStaysTorn(JournalMedium(f), t, x)
  {
    var md := JournalMedium(f);
    if md.Fits(r) && x <= md.Frame(r) && x != md.Frame(r) {
      PartialFrameIsTorn(f, f.encode(r), |x|);
      assert x == md.Frame(r)[..|x|];
    }
    if Torn(t) && x <= t {
      PartOfTornIsTorn(t, x);
    }
  }

  /** A journal with a faithful codec and any checksum is a sound medium. */
  lemma JournalIsSound(f: Format<Record>)
    requires Faithful(f)
    ensures Sound(JournalMedium(f))
  {
    var md := JournalMedium(f);
    forall b, r, a ensures AppendIsRead(md, b, r, a) {
      JournalAppends(f, b, r, a);
    }
    forall b, t, a ensures TornIsIgnored(md, b, t, a) {
      JournalIgnores(f, b, t, a);
    }
    forall b ensures RestIsTorn(md, b) {
      JournalIgnores(f, b, [], NewApp);
    }
    forall r, x ensures PartIsTorn(md, r, x) {
      JournalTears(f, r, [], x);
    }
    forall t, x ensures TornStaysTorn(md, t, x) {
      JournalTears(f, Entries([]), t, x);
    }
    forall a ensures SnapshotIsRead(md, a) {
      if a.index != 0 && a.hasApplied && md.Fits(Installed(SnapshotOf(a))) {
        CheckpointRecovers(f, a);
      }
    }
  }
}
