/**
A file as a process sees it and as storage keeps it. Bytes that were written are visible at
once and sure only after a sync. A process that dies leaves all that is visible; a power
loss leaves the synced bytes and some of what came after them.

The assumption on a power loss is that what was done since the last sync reaches storage in
order, the last write perhaps in part or as a zero-filled extent.
*/
module Disk {
  import opened Journal

  /**
  `synced` is sure to be on storage; `writes` came later, in this order. `stale` lists
  truncations that were not synced: a length, and the bytes that may still stand there.
  */
  datatype File = File(synced: seq<byte>, writes: seq<seq<byte>>, stale: set<(nat, seq<byte>)>)

  const EmptyFile := File([], [], {})

  function Joined(writes: seq<seq<byte>>): seq<byte> {
    if writes == [] then [] else Joined(writes[..|writes| - 1]) + writes[|writes| - 1]
  }

  /** What a process reads. */
  function Bytes(f: File): seq<byte> {
    f.synced + Joined(f.writes)
  }

  /** What a process would read had only the first `k` unsynced writes been made. */
  function BytesAfter(f: File, k: nat): seq<byte>
    requires k <= |f.writes|
  {
    f.synced + Joined(f.writes[..k])
  }

  function Write(f: File, b: seq<byte>): File {
    f.(writes := f.writes + [b])
  }

  function Sync(f: File): File {
    File(Bytes(f), [], {})
  }

  /** The writes that make up the first `n` bytes. */
  function Keep(writes: seq<seq<byte>>, n: nat): seq<seq<byte>> {
    if n >= |Joined(writes)| then writes
    else
      var front := writes[..|writes| - 1];
      if n <= |Joined(front)| then Keep(front, n) else front + [writes[|writes| - 1][..n - |Joined(front)|]]
  }

  /** Truncation, not yet synced. */
  function Cut(f: File, n: nat): File
    requires n <= |Bytes(f)|
  {
    var stale := f.stale + {(n, Bytes(f)[n..])};
    if n < |f.synced| then File(f.synced[..n], [], stale)
    else File(f.synced, Keep(f.writes, n - |f.synced|), stale)
  }

  function Last(file: File): seq<byte>
    requires file.writes != []
  {
    file.writes[|file.writes| - 1]
  }

  function WithoutLast(file: File): File
    requires file.writes != []
  {
    file.(writes := file.writes[..|file.writes| - 1])
  }

  /** A power loss may leave these bytes: whole writes and a part of the next, or a truncated tail. */
  ghost predicate Leaves(f: File, b: seq<byte>) {
    (exists k: nat, x :: LeavesWrites(f, k, x, b)) || (exists n: nat, d, x :: LeavesTail(f, n, d, x, b))
  }

  ghost predicate LeavesWrites(f: File, k: nat, x: seq<byte>, b: seq<byte>) {
    && k <= |f.writes| && b == BytesAfter(f, k) + x
    && (x == [] || (k < |f.writes| && (x <= f.writes[k] || AllZero(x))))
  }

  ghost predicate LeavesTail(f: File, n: nat, d: seq<byte>, x: seq<byte>, b: seq<byte>) {
    (n, d) in f.stale && x <= d && n <= |Bytes(f)| && b == Bytes(f)[..n] + x
  }

  lemma {:induction false} KeepIsPrefix(writes: seq<seq<byte>>, n: nat)
    requires n <= |Joined(writes)|
    ensures Joined(Keep(writes, n)) == Joined(writes)[..n]
  {
    if n < |Joined(writes)| {
      var front := writes[..|writes| - 1];
      if n <= |Joined(front)| {
        KeepIsPrefix(front, n);
      } else {
        assert (front + [writes[|writes| - 1][..n - |Joined(front)|]])[..|front|] == front;
      }
    }
  }

  /** A truncated file reads as the first bytes of what it was. */
  lemma CutReads(f: File, n: nat)
    requires n <= |Bytes(f)|
    ensures Bytes(Cut(f, n)) == Bytes(f)[..n]
  {
    if n >= |f.synced| {
      KeepIsPrefix(f.writes, n - |f.synced|);
    }
  }

  lemma {:induction false} JoinedPrefix(writes: seq<seq<byte>>, k: nat)
    requires k <= |writes|
    ensures Joined(writes[..k]) <= Joined(writes)
  {
    if k < |writes| {
      JoinedPrefix(writes[..|writes| - 1], k);
      assert writes[..|writes| - 1][..k] == writes[..k];
    } else {
      assert writes[..k] == writes;
    }
  }

  lemma ReadsPrefix(f: File, k: nat)
    requires k <= |f.writes|
    ensures |BytesAfter(f, k)| <= |Bytes(f)| && Bytes(f)[..|BytesAfter(f, k)|] == BytesAfter(f, k)
  {
    JoinedPrefix(f.writes, k);
  }

  lemma WriteReads(file: File, b: seq<byte>)
    ensures Bytes(Write(file, b)) == Bytes(file) + b
    ensures b != [] ==> WithoutLast(Write(file, b)) == file && Last(Write(file, b)) == b
  {
    assert (file.writes + [b])[..|file.writes|] == file.writes;
  }

  lemma LastReads(file: File)
    requires file.writes != []
    ensures Bytes(file) == Bytes(WithoutLast(file)) + Last(file)
  {
  }

  /** Cutting off the last write removes it, and until the next sync it may come back. */
  lemma CutLast(file: File)
    requires file.writes != [] && Last(file) != []
    ensures var n := |Bytes(WithoutLast(file))|;
            n < |Bytes(file)| && Cut(file, n) == WithoutLast(file).(stale := file.stale + {(n, Last(file))})
  {
    var front := WithoutLast(file);
    var n := |Joined(front.writes)|;
    assert Keep(front.writes, n) == front.writes;
    assert Keep(file.writes, n) == Keep(front.writes, n);
    LastReads(file);
    assert Bytes(file)[|Bytes(front)|..] == Last(file);
  }
}
