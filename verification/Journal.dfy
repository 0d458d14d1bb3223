/**
The checksum-framed journal: byte format, opening with torn-tail recovery, append, and
the atomic checkpoint that replaces all records by one.

The checksum is an arbitrary function of the payload and the record encoding an arbitrary
codec; both are fields of `Format`. Files are byte sequences, named by inode number.
*/
module Journal {
  import opened Kv

  type byte = x: int | 0 <= x < 0x100
  type word = x: int | 0 <= x < 0x1_0000_0000

  const MAX_RECORD := 64 * 1024 * 1024

  datatype Format<!T> = Format(
    encode: T -> seq<byte>,
    decode: seq<byte> -> Option<T>,
    checksum: seq<byte> -> word)

  /** Decoding undoes encoding. */
  ghost predicate Faithful<T(!new)>(f: Format<T>) {
    forall r :: f.decode(f.encode(r)) == Some(r)
  }

  // ---------- Bytes ----------

  function BigEndian(n: word): (b: seq<byte>)
    ensures |b| == 4
  {
    [n / 0x100 / 0x100 / 0x100, n / 0x100 / 0x100 % 0x100, n / 0x100 % 0x100, n % 0x100]
  }

  function Word(b: seq<byte>): word
    requires |b| == 4
  {
    var b0: int, b1: int, b2: int, b3: int := b[0], b[1], b[2], b[3];
    ((b0 * 0x100 + b1) * 0x100 + b2) * 0x100 + b3
  }

  lemma WordOfBigEndian(n: word)
    ensures Word(BigEndian(n)) == n
  {
  }

  lemma BigEndianOfWord(b: seq<byte>)
    requires |b| == 4
    ensures BigEndian(Word(b)) == b
  {
    var b0: int, b1: int, b2: int := b[0], b[1], b[2];
    assert Word(b) / 0x100 == (b0 * 0x100 + b1) * 0x100 + b2;
    assert Word(b) / 0x100 / 0x100 == b0 * 0x100 + b1;
  }

  predicate AllZero(b: seq<byte>) {
    forall i | 0 <= i < |b| :: b[i] == 0
  }

  predicate Fits(payload: seq<byte>) {
    0 < |payload| <= MAX_RECORD
  }

  function Frame<T>(f: Format<T>, payload: seq<byte>): (b: seq<byte>)
    requires Fits(payload)
    ensures |b| == 8 + |payload|
  {
    BigEndian(|payload|) + BigEndian(f.checksum(payload)) + payload
  }

  /** A frame on disk: the length, then the checksum, highest byte first, then the payload. */
  lemma FrameLayout<T>(f: Format<T>, payload: seq<byte>)
    requires Fits(payload)
    ensures var b := Frame(f, payload);
            && b[0] as int * 0x100_0000 + b[1] as int * 0x1_0000 + b[2] as int * 0x100 + b[3] as int == |payload|
            && b[4] as int * 0x100_0000 + b[5] as int * 0x1_0000 + b[6] as int * 0x100 + b[7] as int ==
               f.checksum(payload)
            && b[8..] == payload
  {
    var size, sum := BigEndian(|payload|), BigEndian(f.checksum(payload));
    var b := Frame(f, payload);
    WordOfBigEndian(|payload|);
    WordOfBigEndian(f.checksum(payload));
    assert forall i | 0 <= i < 4 :: b[i] == size[i] && b[4 + i] == sum[i];
  }

  /** The bytes of a file that holds exactly these records' frames. */
  ghost function Frames<T>(f: Format<T>, payloads: seq<seq<byte>>): seq<byte>
    requires forall i | 0 <= i < |payloads| :: Fits(payloads[i])
  {
    if payloads == [] then [] else
      assert Fits(payloads[0]);
      Frame(f, payloads[0]) + Frames(f, payloads[1..])
  }

  // ---------- Opening ----------

  datatype Opened<+T> = Opened(records: seq<T>, valid: nat) | Rejected

  /** What stands first in the remaining bytes. */
  datatype Head<+T> = Record(record: T, size: nat) | Tail | Corrupt

  function ReadHead<T>(f: Format<T>, b: seq<byte>): (r: Head<T>)
    ensures r.Record? ==> 8 < r.size <= |b|
  {
    if |b| < 8 then Tail
    else
      var size := Word(b[..4]);
      if size == 0 && AllZero(b) then Tail
      else if size == 0 || size > MAX_RECORD then Corrupt
      else if |b| - 8 < size then Tail
      else
        var payload := b[8..8 + size];
        if f.checksum(payload) != Word(b[4..8]) then Corrupt
        else match f.decode(payload)
          case None => Corrupt
          case Some(record) => Record(record, 8 + size)
  }

  /** What opening a file with these bytes recovers: the records and the length kept. */
  function Scan<T>(f: Format<T>, b: seq<byte>): (r: Opened<T>)
    ensures r.Opened? ==> r.valid <= |b|
    decreases |b|
  {
    match ReadHead(f, b)
    case Tail => Opened([], 0)
    case Corrupt => Rejected
    case Record(record, size) => Before([record], size, Scan(f, b[size..]))
  }

  /** The result of opening a file whose first `n` bytes hold `records`. */
  function Before<T>(records: seq<T>, n: nat, rest: Opened<T>): Opened<T> {
    match rest
    case Rejected => Rejected
    case Opened(more, valid) => Opened(records + more, n + valid)
  }

  lemma BeforeBefore<T>(a: seq<T>, m: nat, b: seq<T>, n: nat, rest: Opened<T>)
    ensures Before(a, m, Before(b, n, rest)) == Before(a + b, m + n, rest)
  {
    if rest.Opened? {
      assert a + (b + rest.records) == (a + b) + rest.records;
    }
  }

  method ZeroFilled(b: seq<byte>, from: nat) returns (zero: bool)
    requires from <= |b|
    ensures zero <==> AllZero(b[from..])
  {
    var position := from;
    while position < |b|
      invariant from <= position <= |b|
      invariant AllZero(b[from..position])
    {
      var length := if |b| - position < 8192 then |b| - position else 8192;
      var buffer := b[position..position + length];
      if exists i | 0 <= i < |buffer| :: buffer[i] != 0 {
        var i :| 0 <= i < |buffer| && buffer[i] != 0;
        assert b[from..][position - from + i] != 0;
        return false;
      }
      assert b[from..position + length] == b[from..position] + buffer;
      position := position + length;
    }
    assert b[from..position] == b[from..];
    return true;
  }

  /** Reads the header at `valid`, the payload it announces, and decodes it. */
  method ReadFrame<T>(f: Format<T>, b: seq<byte>, valid: nat) returns (head: Head<T>)
    requires valid <= |b|
    ensures head == ReadHead(f, b[valid..])
  {
    var rest := b[valid..];
    if |b| - valid < 8 {
      return Tail;
    }
    var header := b[valid..valid + 8];
    var size, checksum := Word(header[..4]), Word(header[4..]);
    assert rest[..4] == header[..4] && rest[4..8] == header[4..];
    assert rest == header + b[valid + 8..];
    if size == 0 && AllZero(header) {
      var zero := ZeroFilled(b, valid + 8);
      if zero {
        return Tail;
      }
    }
    if size == 0 || size > MAX_RECORD {
      return Corrupt;
    }
    if |b| - valid - 8 < size {
      return Tail;
    }
    var payload := b[valid + 8..valid + 8 + size];
    assert rest[8..8 + size] == payload;
    if f.checksum(payload) != checksum {
      return Corrupt;
    }
    var record := f.decode(payload);
    return if record.None? then Corrupt else Record(record.value, 8 + size);
  }

  /** Passing over one complete frame keeps the reading of the whole file. */
  lemma ParseStep<T>(f: Format<T>, b: seq<byte>, records: seq<T>, valid: nat, head: Head<T>)
    requires valid <= |b| && Scan(f, b) == Before(records, valid, Scan(f, b[valid..]))
    requires head == ReadHead(f, b[valid..]) && head.Record?
    ensures valid + head.size <= |b| && head.size > 0
    ensures Scan(f, b) == Before(records + [head.record], valid + head.size, Scan(f, b[valid + head.size..]))
  {
    assert b[valid..][head.size..] == b[valid + head.size..];
    BeforeBefore(records, valid, [head.record], head.size, Scan(f, b[valid + head.size..]));
  }

  lemma ParseEnds<T>(f: Format<T>, b: seq<byte>, records: seq<T>, valid: nat, head: Head<T>)
    requires valid <= |b| && Scan(f, b) == Before(records, valid, Scan(f, b[valid..]))
    requires head == ReadHead(f, b[valid..])
    ensures head.Tail? ==> Scan(f, b) == Opened(records, valid)
    ensures head.Corrupt? ==> Scan(f, b) == Rejected
    ensures valid == |b| ==> head.Tail?
  {
    assert records + [] == records;
  }

  /** The parse loop of opening, which advances over one complete frame at a time. */
  method Parse<T>(f: Format<T>, b: seq<byte>) returns (result: Opened<T>)
    ensures result == Scan(f, b)
  {
    var valid: nat, records: seq<T> := 0, [];
    ParseStarts(f, b);
    while valid < |b|
      invariant valid <= |b|
      invariant Scan(f, b) == Before(records, valid, Scan(f, b[valid..]))
    {
      var head := ReadFrame(f, b, valid);
      ParseEnds(f, b, records, valid, head);
      if head.Tail? {
        return Opened(records, valid);
      }
      if head.Corrupt? {
        return Rejected;
      }
      ParseStep(f, b, records, valid, head);
      records, valid := records + [head.record], valid + head.size;
    }
    ParseEnds(f, b, records, valid, ReadHead(f, b[valid..]));
    return Opened(records, valid);
  }

  lemma ParseStarts<T>(f: Format<T>, b: seq<byte>)
    ensures Scan(f, b) == Before([], 0, Scan(f, b[0..]))
  {
    assert b[0..] == b;
  }

  // ---------- What opening guarantees ----------

  /** Opening cuts a tail like this off. */
  predicate Torn(t: seq<byte>) {
    || |t| < 8
    || AllZero(t)
    || (1 <= Word(t[..4]) <= MAX_RECORD && |t| - 8 < Word(t[..4]))
  }

  lemma TornIsCut<T>(f: Format<T>, t: seq<byte>)
    ensures Torn(t) <==> Scan(f, t) == Opened([], 0)
  {
    if |t| >= 8 {
      assert AllZero(t) ==> Word(t[..4]) == 0;
    }
  }

  /** A crash during an append leaves a strict prefix of its frame, or zeros: both are torn. */
  lemma PartialFrameIsTorn<T>(f: Format<T>, payload: seq<byte>, n: nat)
    requires Fits(payload) && n < 8 + |payload|
    ensures Torn(Frame(f, payload)[..n])
  {
    if n >= 8 {
      assert Frame(f, payload)[..n][..4] == BigEndian(|payload|);
      WordOfBigEndian(|payload|);
    }
  }

  lemma FrameIsRead<T>(f: Format<T>, payload: seq<byte>, rest: seq<byte>)
    requires Fits(payload) && f.decode(payload).Some?
    ensures Scan(f, Frame(f, payload) + rest) ==
            Before([f.decode(payload).value], 8 + |payload|, Scan(f, rest))
  {
    var b := Frame(f, payload) + rest;
    assert b[..4] == BigEndian(|payload|) && b[4..8] == BigEndian(f.checksum(payload));
    WordOfBigEndian(|payload|);
    WordOfBigEndian(f.checksum(payload));
    assert b[8..8 + |payload|] == payload && b[8 + |payload|..] == rest;
  }

  /** A complete record stays first whatever follows it. */
  lemma HeadExtends<T>(f: Format<T>, b: seq<byte>, tail: seq<byte>)
    requires ReadHead(f, b).Record?
    ensures ReadHead(f, b + tail) == ReadHead(f, b)
  {
    var whole, size := b + tail, Word(b[..4]);
    assert whole[..4] == b[..4] && whole[4..8] == b[4..8];
    assert whole[8..8 + size] == b[8..8 + size];
  }

  /** Bytes that open completely do so unchanged in front of any further bytes. */
  lemma {:induction false} ScanExtends<T>(f: Format<T>, b: seq<byte>, tail: seq<byte>)
    requires Scan(f, b).Opened? && Scan(f, b).valid == |b|
    ensures Scan(f, b + tail) == Before(Scan(f, b).records, |b|, Scan(f, tail))
    decreases |b|
  {
    if |b| == 0 {
      assert b + tail == tail;
    } else {
      HeadExtends(f, b, tail);
      var head := ReadHead(f, b);
      var rest := b[head.size..];
      assert (b + tail)[head.size..] == rest + tail;
      ScanExtends(f, rest, tail);
      BeforeBefore([head.record], head.size, Scan(f, rest).records, |rest|, Scan(f, tail));
    }
  }

  /**
  Recovery is exact: after bytes that open completely, opening returns the same records and
  cuts the file back to them exactly when the tail is torn.
  */
  lemma RecoveryIsExact<T>(f: Format<T>, b: seq<byte>, tail: seq<byte>)
    requires Scan(f, b).Opened? && Scan(f, b).valid == |b|
    ensures Torn(tail) <==> Scan(f, b + tail) == Scan(f, b)
  {
    ScanExtends(f, b, tail);
    TornIsCut(f, tail);
  }

  /** Frames written one after another open to the records written. */
  lemma {:induction false} FramesOpen<T(!new)>(f: Format<T>, records: seq<T>, payloads: seq<seq<byte>>)
    requires Faithful(f) && |payloads| == |records|
    requires forall i | 0 <= i < |records| :: payloads[i] == f.encode(records[i]) && Fits(payloads[i])
    ensures Scan(f, Frames(f, payloads)) == Opened(records, |Frames(f, payloads)|)
  {
    if records != [] {
      var rest := Frames(f, payloads[1..]);
      FramesOpen(f, records[1..], payloads[1..]);
      FrameInFront(f, records[0], records[1..], payloads[0], rest);
      assert [records[0]] + records[1..] == records;
    }
  }

  lemma FrameInFront<T>(f: Format<T>, record: T, records: seq<T>, payload: seq<byte>, rest: seq<byte>)
    requires Fits(payload) && f.decode(payload) == Some(record) && Scan(f, rest) == Opened(records, |rest|)
    ensures Scan(f, Frame(f, payload) + rest) == Opened([record] + records, |Frame(f, payload) + rest|)
  {
    FrameIsRead(f, payload, rest);
  }

  /** The payloads are those of the records, one frame each. */
  ghost predicate Hold<T>(f: Format<T>, payloads: seq<seq<byte>>, records: seq<T>) {
    && |payloads| == |records|
    && forall i | 0 <= i < |payloads| :: Fits(payloads[i]) && f.decode(payloads[i]) == Some(records[i])
  }

  /** A successful open leaves a file that is exactly the frames of the records returned. */
  lemma {:induction false} OpenLeavesFrames<T>(f: Format<T>, b: seq<byte>) returns (payloads: seq<seq<byte>>)
    requires Scan(f, b).Opened?
    ensures Hold(f, payloads, Scan(f, b).records)
    ensures b[..Scan(f, b).valid] == Frames(f, payloads)
    decreases |b|
  {
    if ReadHead(f, b).Tail? {
      payloads := [];
    } else {
      var size := ReadHead(f, b).size;
      var more := OpenLeavesFrames(f, b[size..]);
      HeadIsFrame(f, b);
      payloads := [b[8..size]] + more;
      HoldOneMore(f, b[8..size], more, ReadHead(f, b).record, Scan(f, b[size..]).records);
      SliceJoins(b, size, Scan(f, b[size..]).valid);
    }
  }

  lemma SliceJoins(b: seq<byte>, m: nat, n: nat)
    requires m + n <= |b|
    ensures b[..m + n] == b[..m] + b[m..][..n]
  {
  }

  lemma HoldOneMore<T>(f: Format<T>, payload: seq<byte>, payloads: seq<seq<byte>>, record: T, records: seq<T>)
    requires Hold(f, payloads, records) && Fits(payload) && f.decode(payload) == Some(record)
    ensures Hold(f, [payload] + payloads, [record] + records)
    ensures Frames(f, [payload] + payloads) == Frame(f, payload) + Frames(f, payloads)
  {
    assert ([payload] + payloads)[1..] == payloads;
  }

  /** A complete record in front of other bytes is read, and then they are. */
  lemma HeadThenRest<T>(f: Format<T>, b: seq<byte>, rest: seq<byte>)
    requires ReadHead(f, b).Record?
    ensures var h := ReadHead(f, b);
            Scan(f, b[..h.size] + rest) == Before([h.record], h.size, Scan(f, rest))
  {
    HeadIsFrame(f, b);
    FrameIsRead(f, b[8..ReadHead(f, b).size], rest);
  }

  /** Opening the file that an open left returns the same records and cuts nothing more. */
  lemma {:induction false} OpenIsIdempotent<T>(f: Format<T>, b: seq<byte>)
    requires Scan(f, b).Opened?
    ensures Scan(f, b[..Scan(f, b).valid]) == Scan(f, b)
    decreases |b|
  {
    if ReadHead(f, b).Record? {
      var size := ReadHead(f, b).size;
      var keep := Scan(f, b[size..]).valid;
      OpenIsIdempotent(f, b[size..]);
      HeadThenRest(f, b, b[size..][..keep]);
      SliceJoins(b, size, keep);
    }
  }

  lemma HeadIsFrame<T>(f: Format<T>, b: seq<byte>)
    requires ReadHead(f, b).Record?
    ensures var h := ReadHead(f, b);
            Fits(b[8..h.size]) && b[..h.size] == Frame(f, b[8..h.size]) && f.decode(b[8..h.size]) == Some(h.record)
  {
    BigEndianOfWord(b[..4]);
    BigEndianOfWord(b[4..8]);
    var size := Word(b[..4]);
    assert b[..8 + size] == b[..4] + b[4..8] + b[8..8 + size];
  }

  /** A complete frame whose checksum is wrong is rejected wherever it stands. */
  lemma CorruptFrameIsRejected<T>(f: Format<T>, b: seq<byte>, frame: seq<byte>, rest: seq<byte>)
    requires Scan(f, b).Opened? && Scan(f, b).valid == |b|
    requires |frame| >= 8 && 1 <= Word(frame[..4]) <= MAX_RECORD && |frame| == 8 + Word(frame[..4])
    requires f.checksum(frame[8..]) != Word(frame[4..8])
    ensures Scan(f, b + (frame + rest)).Rejected?
  {
    ScanExtends(f, b, frame + rest);
    var t := frame + rest;
    assert t[..4] == frame[..4] && t[4..8] == frame[4..8] && t[8..|frame|] == frame[8..];
  }

  // ---------- The journal object ----------

  /** Files by inode, and the inode that the journal's path names. */
  datatype Files = Files(inodes: seq<seq<byte>>, path: nat)

  /** The files once the path names one: a missing file is created empty. */
  function Present(files: Files, existed: bool): (r: Files)
    requires existed ==> files.path < |files.inodes|
    ensures r.path < |r.inodes|
  {
    if existed then files else Files(files.inodes + [[]], |files.inodes|)
  }

  /** The file at the path, cut back to its first bytes. */
  function Kept(files: Files, valid: nat): Files
    requires files.path < |files.inodes| && valid <= |files.inodes[files.path]|
  {
    files.(inodes := files.inodes[files.path := files.inodes[files.path][..valid]])
  }

  /** Points at which a checkpoint can fail after it has begun. */
  datatype Failure = NoFailure | BeforeRename | AfterRename

  class Journal<!T(!new)> {
    const format: Format<T>
    var files: Files
    var file: nat
    var poisoned: bool
    var syncs: nat
    var bytes: nat

    ghost predicate Valid()
      reads this
    {
      && files.path < |files.inodes| && file < |files.inodes|
      && (!poisoned ==> file == files.path)
    }

    constructor (format: Format<T>, files: Files)
      requires files.path < |files.inodes|
      ensures Valid() && !poisoned
      ensures this.format == format && this.files == files && syncs == 0 && bytes == 0
    {
      this.format, this.files, this.file, this.poisoned := format, files, files.path, false;
      syncs, bytes := 0, 0;
    }

    /** Opens the path, creating a missing file, or refuses; the file is cut back to its complete records. */
    static method Open(format: Format<T>, before: Files, existed: bool)
      returns (journal: Option<Journal<T>>, records: seq<T>)
      requires existed ==> before.path < |before.inodes|
      ensures !existed ==> journal.Some? && records == []
      ensures var files := Present(before, existed);
              var found := Scan(format, files.inodes[files.path]);
              && (journal.None? <==> found.Rejected?)
              && (journal.Some? ==>
                    && fresh(journal.value) && journal.value.Valid() && !journal.value.poisoned
                    && journal.value.format == format && records == found.records
                    && journal.value.files == Kept(files, found.valid))
    {
      var files := if existed then before else Files(before.inodes + [[]], |before.inodes|);
      var b := files.inodes[files.path];
      var found := Parse(format, b);
      if found.Rejected? {
        return None, [];
      }
      var kept := if found.valid < |b| then b[..found.valid] else b;
      assert kept == b[..found.valid];
      var result := new Journal(format, files.(inodes := files.inodes[files.path := kept]));
      return Some(result), found.records;
    }

    method Append(record: T) returns (ok: bool)
      requires Valid()
      modifies this
      ensures Valid() && poisoned == old(poisoned) && file == old(file)
      ensures ok <==> !poisoned && Fits(format.encode(record))
      ensures !ok ==> files == old(files) && syncs == old(syncs) && bytes == old(bytes)
      ensures ok ==>
                var frame := Frame(format, format.encode(record));
                && file == files.path
                && files == old(files).(inodes := old(files).inodes[file := old(files).inodes[file] + frame])
                && syncs == old(syncs) + 1 && bytes == old(bytes) + |frame|
    {
      if poisoned {
        return false;
      }
      var payload := format.encode(record);
      if |payload| == 0 || |payload| > MAX_RECORD {
        return false;
      }
      var frame := BigEndian(|payload|) + BigEndian(format.checksum(payload)) + payload;
      files := files.(inodes := files.inodes[file := files.inodes[file] + frame]);
      syncs, bytes := syncs + 1, bytes + |frame|;
      return true;
    }

    /**
    Replaces all records by one encoded record. A failure after the start leaves the writer
    poisoned, whichever file the path then names.
    */
    method Checkpoint(payload: seq<byte>, failure: Failure) returns (ok: bool)
      requires Valid()
      modifies this
      ensures Valid()
      ensures ok <==> !old(poisoned) && Fits(payload) && failure == NoFailure
      ensures old(poisoned) || !Fits(payload) ==> files == old(files) && poisoned == old(poisoned) && file == old(file)
      ensures !old(poisoned) && Fits(payload) ==>
                var written := old(files).inodes + [Frame(format, payload)];
                && files == Files(written, if failure == BeforeRename then old(files).path else |old(files).inodes|)
                && poisoned == !ok && file == (if ok then files.path else old(file))
    {
      if poisoned || |payload| == 0 || |payload| > MAX_RECORD {
        return false;
      }
      poisoned := true;
      var temporary := |files.inodes|;
      var header := BigEndian(|payload|) + BigEndian(format.checksum(payload));
      files := files.(inodes := files.inodes + [header + payload]);
      if failure == BeforeRename {
        return false;
      }
      files := files.(path := temporary);
      if failure == AfterRename {
        return false;
      }
      file := files.path;
      poisoned := false;
      syncs, bytes := syncs + 1, bytes + |header| + |payload|;
      return true;
    }
  }
}
