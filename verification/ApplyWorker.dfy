/**
The bounded application worker: submissions are cut into chunks under an entry cap and a
byte cap, and queries wait behind a durable fence while the worker makes progress of its
own accord.
*/
module ApplyWorker {
  import opened Kv
  import opened Durable

  const BATCH_ENTRIES := 64
  const BATCH_BYTES := 256 * 1024
  const QUERY_LIMIT := 16

  // ---------- Sizes ----------

  function KindBytes(k: Kind): nat {
    if k.Unsupported? then |k.name| else 3
  }

  function PayloadBytes(e: Applied): nat {
    128 + match e.command
          case None => 0
          case Some(c) =>
            |c.client| + KindBytes(c.kind) + |c.key| + |c.value| + (if c.expected.Some? then |c.expected.value| else 0)
  }

  function RetainedBytes(e: Applied): nat {
    2 * PayloadBytes(e) + 64 * 1024
  }

  function Bytes(entries: seq<Applied>): nat {
    if entries == [] then 0 else Bytes(entries[..|entries| - 1]) + PayloadBytes(entries[|entries| - 1])
  }

  function Retained(entries: seq<Applied>): nat {
    if entries == [] then 0 else Retained(entries[..|entries| - 1]) + RetainedBytes(entries[|entries| - 1])
  }

  lemma {:induction false} RetainedSplit(a: seq<Applied>, b: seq<Applied>)
    ensures Retained(a + b) == Retained(a) + Retained(b)
  {
    if b == [] {
      assert a + b == a;
    } else {
      assert (a + b)[..|a + b| - 1] == a + b[..|b| - 1];
      RetainedSplit(a, b[..|b| - 1]);
    }
  }

  lemma {:induction false} BytesSplit(a: seq<Applied>, b: seq<Applied>)
    ensures Bytes(a + b) == Bytes(a) + Bytes(b)
  {
    if b == [] {
      assert a + b == a;
    } else {
      assert (a + b)[..|a + b| - 1] == a + b[..|b| - 1];
      BytesSplit(a, b[..|b| - 1]);
    }
  }

  /** The strings of an entry, one after the other. */
  ghost function Content(e: Applied): string {
    match e.command
    case None => []
    case Some(c) => c.client + KindName(c.kind) + c.key + c.value + (if c.expected.Some? then c.expected.value else [])
  }

  ghost function KindName(k: Kind): string {
    match k
    case Put => "put"
    case Get => "get"
    case Cas => "cas"
    case Unsupported(name) => name
  }

  ghost function Contents(entries: seq<Applied>): string {
    if entries == [] then [] else Contents(entries[..|entries| - 1]) + Content(entries[|entries| - 1])
  }

  /** What entries weigh: 128 bytes each, and every byte of every string they carry. */
  ghost function Weight(entries: seq<Applied>): nat {
    128 * |entries| + |Contents(entries)|
  }

  lemma PayloadIsWeight(e: Applied)
    ensures PayloadBytes(e) == Weight([e])
  {
    ContentsOfOne(e);
    assert e.command.Some? ==> KindBytes(e.command.value.kind) == |KindName(e.command.value.kind)|;
  }

  /** The running totals are the weight, and what is retained is twice that and 64 KiB for each entry. */
  lemma {:induction false} BytesAreWeight(entries: seq<Applied>)
    ensures Bytes(entries) == Weight(entries)
    ensures Retained(entries) == 2 * Weight(entries) + 64 * 1024 * |entries|
  {
    if entries != [] {
      var n := |entries| - 1;
      BytesAreWeight(entries[..n]);
      PayloadIsWeight(entries[n]);
      WeightGrows(entries);
    }
  }

  lemma WeightGrows(entries: seq<Applied>)
    requires entries != []
    ensures Weight(entries) == Weight(entries[..|entries| - 1]) + Weight([entries[|entries| - 1]])
  {
    ContentsOfOne(entries[|entries| - 1]);
  }

  lemma ContentsOfOne(e: Applied)
    ensures Contents([e]) == Content(e)
  {
    assert [e][..0] == [];
  }

  // ---------- Chunks ----------

  predicate LegalChunk(c: seq<Applied>) {
    1 <= |c| <= BATCH_ENTRIES && Bytes(c) <= BATCH_BYTES
  }

  function Flat(chunks: seq<seq<Applied>>): seq<Applied> {
    if chunks == [] then [] else chunks[0] + Flat(chunks[1..])
  }

  lemma {:induction false} FlatAppend(chunks: seq<seq<Applied>>, c: seq<Applied>)
    ensures Flat(chunks + [c]) == Flat(chunks) + c
  {
    if chunks == [] {
      assert chunks + [c] == [c] && [c][1..] == [];
    } else {
      FlatAppend(chunks[1..], c);
      assert (chunks + [c])[1..] == chunks[1..] + [c];
    }
  }

  lemma {:induction false} FlatSplits(a: seq<seq<Applied>>, b: seq<seq<Applied>>)
    ensures Flat(a + b) == Flat(a) + Flat(b)
  {
    if a == [] {
      assert a + b == b;
    } else {
      FlatSplits(a[1..], b);
      assert (a + b)[1..] == a[1..] + b && (a + b)[0] == a[0];
      Associates(a[0], Flat(a[1..]), Flat(b));
    }
  }

  lemma Associates(a: seq<Applied>, b: seq<Applied>, c: seq<Applied>)
    ensures a + (b + c) == a + b + c
  {
  }

  /** The first chunks and one more stay within the whole. */
  lemma PartOfFlat(chunks: seq<seq<Applied>>, i: nat)
    requires i < |chunks|
    ensures var part := Flat(chunks[..i]) + chunks[i];
            part == Flat(chunks[..i + 1]) && |part| <= |Flat(chunks)| && Retained(part) <= Retained(Flat(chunks))
  {
    FlatAppend(chunks[..i], chunks[i]);
    assert chunks[..i + 1] == chunks[..i] + [chunks[i]];
    PartIsLess(chunks, chunks[..i + 1], chunks[i + 1..]);
  }

  lemma PartIsLess(chunks: seq<seq<Applied>>, a: seq<seq<Applied>>, b: seq<seq<Applied>>)
    requires chunks == a + b
    ensures |Flat(a)| <= |Flat(chunks)| && Retained(Flat(a)) <= Retained(Flat(chunks))
  {
    FlatSplits(a, b);
    RetainedSplit(Flat(a), Flat(b));
  }

  ghost predicate AllLegal(chunks: seq<seq<Applied>>) {
    forall i | 0 <= i < |chunks| :: LegalChunk(chunks[i])
  }

  /** No chunk could have taken the entry that starts the next one. */
  ghost predicate Maximal(chunks: seq<seq<Applied>>) {
    |chunks| <= 1 ||
    (chunks[1] != [] && !LegalChunk(chunks[0] + [chunks[1][0]]) && Maximal(chunks[1..]))
  }

  lemma {:induction false} MaximalAppend(chunks: seq<seq<Applied>>, c: seq<Applied>)
    requires Maximal(chunks) && c != []
    requires chunks != [] ==> !LegalChunk(chunks[|chunks| - 1] + [c[0]])
    ensures Maximal(chunks + [c])
  {
    if |chunks| > 1 {
      MaximalAppend(chunks[1..], c);
      assert (chunks + [c])[1..] == chunks[1..] + [c];
    } else if |chunks| == 1 {
      assert (chunks + [c])[1..] == [c];
    }
  }

  lemma PartOfLegalIsLegal(a: seq<Applied>, b: seq<Applied>, c: seq<Applied>)
    requires LegalChunk(a + b + c) && b != []
    ensures LegalChunk(b)
  {
    BytesSplit(a + b, c);
    BytesSplit(a, b);
  }

  lemma DropPrefix<T>(a: seq<T>, b: seq<T>, p: seq<T>, rest: seq<T>)
    requires a + b == p + rest && |p| <= |a|
    ensures a[|p|..] + b == rest
  {
    assert (a + b)[|p|..] == a[|p|..] + b;
    assert (p + rest)[|p|..] == rest;
  }

  /**
  Greedy chunking is optimal: chunks that each stop only at a cap are no more than those of
  any legal partition, even of one that starts with `extra` entries more.
  */
  lemma {:induction false} MaximalIsFewest(extra: seq<Applied>, chunks: seq<seq<Applied>>, parts: seq<seq<Applied>>)
    requires AllLegal(chunks) && Maximal(chunks) && AllLegal(parts)
    requires extra + Flat(chunks) == Flat(parts)
    ensures |chunks| <= |parts|
    decreases |parts|
  {
    if chunks != [] {
      assert LegalChunk(chunks[0]);
      var c, p := chunks[0], parts[0];
      var tail, rest := Flat(chunks[1..]), Flat(parts[1..]);
      if |p| <= |extra| {
        DropPrefix(extra, c + tail, p, rest);
        MaximalIsFewest(extra[|p|..], chunks, parts[1..]);
      } else {
        ReachesNoFurther(extra, chunks, p, rest);
        assert (extra + c) + tail == p + rest;
        DropPrefix(extra + c, tail, p, rest);
        MaximalIsFewest((extra + c)[|p|..], chunks[1..], parts[1..]);
      }
    }
  }

  lemma CoversNext<T>(a: seq<T>, b: seq<T>, c: seq<T>, d: seq<T>, p: seq<T>, rest: seq<T>)
    requires a + (b + (c + d)) == p + rest && c != [] && |p| > |a| + |b|
    ensures p == a + (b + [c[0]]) + p[|a| + |b| + 1..]
  {
    var whole := a + (b + (c + d));
    forall i | 0 <= i < |a| + |b| + 1 ensures p[i] == (a + (b + [c[0]]))[i] {
      assert p[i] == whole[i];
    }
  }

  /** No legal chunk that covers the start of a maximal chunk reaches beyond its end. */
  lemma ReachesNoFurther(extra: seq<Applied>, chunks: seq<seq<Applied>>, p: seq<Applied>, rest: seq<Applied>)
    requires Maximal(chunks) && chunks != [] && LegalChunk(p)
    requires extra + Flat(chunks) == p + rest && |extra| < |p|
    ensures |p| <= |extra + chunks[0]|
  {
    if |chunks| == 1 {
      assert Flat(chunks[1..]) == [];
    } else {
      var c, next := chunks[0], chunks[1];
      var k := |extra| + |c| + 1;
      assert Flat(chunks) == c + (next + Flat(chunks[1..][1..]));
      if |p| >= k {
        CoversNext(extra, c, next, Flat(chunks[1..][1..]), p, rest);
        PartOfLegalIsLegal(extra, c + [next[0]], p[k..]);
      }
    }
  }

  /** Legal chunks of exactly these entries, as few as can be. */
  ghost predicate Optimal(chunks: seq<seq<Applied>>, entries: seq<Applied>) {
    && Flat(chunks) == entries && AllLegal(chunks)
    && forall parts | Flat(parts) == entries && AllLegal(parts) :: |chunks| <= |parts|
  }

  /** The chunks of one submission: a single chunk if it fits, otherwise cut greedily. */
  method Chunk(entries: seq<Applied>) returns (chunks: seq<seq<Applied>>)
    requires entries != [] && forall i | 0 <= i < |entries| :: PayloadBytes(entries[i]) <= BATCH_BYTES
    ensures Optimal(chunks, entries)
    ensures forall c <- chunks :: Weight(c) <= BATCH_BYTES
  {
    if |entries| <= BATCH_ENTRIES && Bytes(entries) <= BATCH_BYTES {
      chunks := [entries];
      assert chunks[1..] == [];
    } else {
      chunks := CutGreedily(entries);
    }
    forall parts | Flat(parts) == entries && AllLegal(parts) ensures |chunks| <= |parts| {
      assert [] + Flat(chunks) == Flat(chunks);
      MaximalIsFewest([], chunks, parts);
    }
    forall c <- chunks ensures Weight(c) <= BATCH_BYTES {
      BytesAreWeight(c);
    }
  }

  /** Where the loop stands: finished chunks, the open chunk, and the entries cut so far. */
  ghost predicate Cut(chunks: seq<seq<Applied>>, chunk: seq<Applied>, entries: seq<Applied>) {
    && Flat(chunks) + chunk == entries && AllLegal(chunks) && Maximal(chunks)
    && (if chunk == [] then chunks == [] else LegalChunk(chunk))
    && (chunks != [] ==> !LegalChunk(chunks[|chunks| - 1] + [chunk[0]]))
  }

  lemma CutCloses(chunks: seq<seq<Applied>>, chunk: seq<Applied>, entries: seq<Applied>)
    requires Cut(chunks, chunk, entries) && chunk != []
    ensures var c := chunks + [chunk];
            Flat(c) == entries && AllLegal(c) && Maximal(c)
  {
    FlatAppend(chunks, chunk);
    MaximalAppend(chunks, chunk);
  }

  lemma CutGrows(chunks: seq<seq<Applied>>, chunk: seq<Applied>, entries: seq<Applied>, e: Applied)
    requires Cut(chunks, chunk, entries) && PayloadBytes(e) <= BATCH_BYTES
    ensures Bytes(chunk + [e]) == Bytes(chunk) + PayloadBytes(e) && Bytes([e]) == PayloadBytes(e)
    ensures LegalChunk(chunk + [e]) ==> Cut(chunks, chunk + [e], entries + [e])
    ensures chunk != [] && !LegalChunk(chunk + [e]) ==> Cut(chunks + [chunk], [e], entries + [e])
  {
    assert (chunk + [e])[..|chunk|] == chunk;
    assert Bytes([e]) == PayloadBytes(e) by {
      assert [e][..0] == [];
    }
    assert Flat(chunks) + (chunk + [e]) == entries + [e];
    if chunk != [] {
      CutCloses(chunks, chunk, entries);
    }
  }

  /** One step of the loop: the chunk is closed if it is full, and then takes the entry. */
  method CutOne(chunks: seq<seq<Applied>>, chunk: seq<Applied>, bytes: nat, e: Applied, ghost entries: seq<Applied>)
    returns (chunks': seq<seq<Applied>>, chunk': seq<Applied>, bytes': nat)
    requires Cut(chunks, chunk, entries) && bytes == Bytes(chunk) && PayloadBytes(e) <= BATCH_BYTES
    ensures Cut(chunks', chunk', entries + [e]) && bytes' == Bytes(chunk') && chunk' != []
  {
    CutGrows(chunks, chunk, entries, e);
    if chunk != [] && (|chunk| == BATCH_ENTRIES || bytes + PayloadBytes(e) > BATCH_BYTES) {
      return chunks + [chunk], [e], PayloadBytes(e);
    }
    return chunks, chunk + [e], bytes + PayloadBytes(e);
  }

  method CutGreedily(entries: seq<Applied>) returns (chunks: seq<seq<Applied>>)
    requires entries != [] && forall i | 0 <= i < |entries| :: PayloadBytes(entries[i]) <= BATCH_BYTES
    ensures Flat(chunks) == entries && AllLegal(chunks) && Maximal(chunks)
  {
    var chunk: seq<Applied>, chunkBytes := [], 0;
    chunks := [];
    for i := 0 to |entries|
      invariant Cut(chunks, chunk, entries[..i])
      invariant chunkBytes == Bytes(chunk) && (i > 0 ==> chunk != [])
    {
      assert entries[..i + 1] == entries[..i] + [entries[i]];
      chunks, chunk, chunkBytes := CutOne(chunks, chunk, chunkBytes, entries[i], entries[..i]);
    }
    assert entries[..|entries|] == entries;
    CutCloses(chunks, chunk, entries);
    chunks := chunks + [chunk];
  }

  // ---------- The worker ----------

  datatype Answer = FromStore(index: nat) | Failed

  /** A waiting query and the index that was accepted when it was asked. */
  datatype Pending = Pending(query: nat, fence: nat)

  datatype Replied = Replied(pending: Pending, answer: Answer)

  /** What became of a submission; the worker may not take one of its chunks. */
  datatype Submission = Refused | NoCapacity | NotTaken(chunk: nat) | Submitted

  ghost function Asked(replies: seq<Replied>): seq<Pending> {
    if replies == [] then [] else Asked(replies[..|replies| - 1]) + [replies[|replies| - 1].pending]
  }

  /** Queries leave in the order they came, each with one reply, and no answer is early. */
  ghost predicate Queue(accepted: nat, queries: seq<Pending>, admitted: seq<Pending>, replies: seq<Replied>) {
    && |queries| <= QUERY_LIMIT
    && (forall i, j | 0 <= i < j < |queries| :: queries[i].fence <= queries[j].fence)
    && (forall i | 0 <= i < |queries| :: queries[i].fence <= accepted)
    && admitted == Asked(replies) + queries
    && (forall i | 0 <= i < |replies| :: Timely(replies[i]))
  }

  ghost predicate Timely(r: Replied) {
    r.answer.FromStore? ==> r.pending.fence <= r.answer.index
  }

  lemma ReplyKeeps(accepted: nat, queries: seq<Pending>, admitted: seq<Pending>, replies: seq<Replied>, a: Answer)
    requires Queue(accepted, queries, admitted, replies) && queries != [] && Timely(Replied(queries[0], a))
    ensures Queue(accepted, queries[1..], admitted, replies + [Replied(queries[0], a)])
  {
    var r := replies + [Replied(queries[0], a)];
    assert r[..|replies|] == replies;
    assert queries == [queries[0]] + queries[1..];
  }

  lemma AskKeeps(accepted: nat, queries: seq<Pending>, admitted: seq<Pending>, replies: seq<Replied>, q: nat)
    requires Queue(accepted, queries, admitted, replies) && |queries| < QUERY_LIMIT
    ensures Queue(accepted, queries + [Pending(q, accepted)], admitted + [Pending(q, accepted)], replies)
  {
  }

  /** The i-th reply goes to the i-th query that was queued; the others still wait, in order. */
  lemma {:induction false} RepliesFollowQueries(
      accepted: nat, queries: seq<Pending>, admitted: seq<Pending>, replies: seq<Replied>)
    requires Queue(accepted, queries, admitted, replies)
    ensures |admitted| == |replies| + |queries|
    ensures forall i | 0 <= i < |replies| :: replies[i].pending == admitted[i] && Timely(replies[i])
    ensures forall i | 0 <= i < |queries| :: queries[i] == admitted[|replies| + i]
  {
    AskedPointwise(replies);
  }

  lemma {:induction false} AskedPointwise(replies: seq<Replied>)
    ensures |Asked(replies)| == |replies|
    ensures forall i | 0 <= i < |replies| :: Asked(replies)[i] == replies[i].pending
  {
    if replies != [] {
      AskedPointwise(replies[..|replies| - 1]);
    }
  }

  class ApplyWorker {
    var availableEntries: nat
    var availableBytes: nat
    var accepted: nat               // last index accepted for application
    var durable: nat                // published by the worker once applied and synced
    var store: App                  // the store behind its lock
    var running: bool               // the worker takes work and queries
    var queries: seq<Pending>
    var queryCount: nat

    ghost var submitted: seq<Applied>     // everything handed to the worker, in order
    ghost var admitted: seq<Pending>      // queries that were queued, in order
    ghost var replies: seq<Replied>       // their replies, in order
    ghost var overloaded: seq<nat>        // queries turned away at once
    ghost var stopped: seq<nat>           // queries failed at once, the worker having stopped

    ghost predicate Valid()
      reads this
    {
      && durable <= store.index <= accepted && queryCount == |queries|
      && Queue(accepted, queries, admitted, replies)
    }

    constructor (store: App, entries: nat, bytes: nat)
      ensures Valid() && accepted == durable == store.index && this.store == store && running
      ensures queries == [] && admitted == [] && replies == []
    {
      availableEntries, availableBytes, running := entries, bytes, true;
      accepted, durable, this.store, queries, queryCount := store.index, store.index, store, [], 0;
      submitted, admitted, replies, overloaded, stopped := [], [], [], [], [];
    }

    /** The worker applies, publishes and frees its queue on its own, at any moment. */
    method Progress()
      requires Valid()
      modifies this`durable, this`store, this`availableEntries, this`availableBytes
      ensures Valid() && old(durable) <= durable && old(store).index <= store.index
      ensures old(store).index == accepted ==> store == old(store)
      ensures old(availableEntries) <= availableEntries && old(availableBytes) <= availableBytes
    {
      var s: App := *;
      var d: nat := *;
      var entries: nat := *;
      var bytes: nat := *;
      if availableEntries <= entries && availableBytes <= bytes {
        availableEntries, availableBytes := entries, bytes;
      }
      if store.index < s.index <= accepted {
        store := s;
      }
      if durable <= d <= store.index {
        durable := d;
      }
    }

    /** Every index that a query may wait for, and the store's, is at most this one. */
    ghost predicate Covers(index: nat)
      reads this
    {
      store.index <= index && forall i | 0 <= i < |queries| :: queries[i].fence <= index
    }

    /**
    Accepts a run of consecutive entries, refuses a malformed one, or asks to wait; `takes` says
    whether the worker takes a chunk. The bookkeeping stays valid exactly when the last index
    does not fall behind, which submissions in log order ensure.
    */
    method TrySubmit(entries: seq<Applied>, takes: seq<Applied> -> bool)
      returns (result: Submission, chunks: seq<seq<Applied>>)
      requires Valid()
      modifies this`availableEntries, this`availableBytes, this`accepted, this`submitted
      ensures Valid() <==> result != Submitted || entries == [] || Covers(entries[|entries| - 1].index)
      ensures entries != [] && old(accepted) < entries[0].index ==> Valid()
      ensures entries == [] ==> result == Submitted && accepted == old(accepted) && submitted == old(submitted)
      ensures entries != [] ==> (result == Refused <==> TooHeavy(entries) || !AllConsecutive(entries))
      ensures entries != [] ==>
                (result == NoCapacity <==>
                 && !TooHeavy(entries) && AllConsecutive(entries)
                 && (|entries| > old(availableEntries)
                     || 2 * Weight(entries) + 64 * 1024 * |entries| > old(availableBytes)))
      ensures result.Submitted? && entries != [] ==> accepted == entries[|entries| - 1].index
      ensures !result.Submitted? ==> accepted == old(accepted)
      ensures result.Submitted? || result.NotTaken? ==> entries == [] || Optimal(chunks, entries)
      ensures forall c <- chunks :: Weight(c) <= BATCH_BYTES
      ensures result.Submitted? ==> Taken(old(submitted), old(availableEntries), old(availableBytes), entries)
      ensures result.Submitted? ==> forall c <- chunks :: takes(c)
      ensures result.NotTaken? ==>
                && result.chunk < |chunks| && !takes(chunks[result.chunk])
                && Taken(old(submitted), old(availableEntries), old(availableBytes), Flat(chunks[..result.chunk]))
      ensures result.Refused? || result.NoCapacity? ==>
                Taken(old(submitted), old(availableEntries), old(availableBytes), [])
    {
      chunks := [];
      assert submitted + [] == submitted;
      if |entries| == 0 {
        return Submitted, [];
      }
      WellFormedMeans(entries);
      if !WellFormed(entries) {
        return Refused, [];
      }
      BytesAreWeight(entries);
      if |entries| > availableEntries || Retained(entries) > availableBytes {
        return NoCapacity, [];
      }
      result, chunks := HandOver(entries, takes);
    }

    /** A submission that fits is cut and handed over; its last index counts once all chunks are taken. */
    method HandOver(entries: seq<Applied>, takes: seq<Applied> -> bool)
      returns (result: Submission, chunks: seq<seq<Applied>>)
      requires Valid() && entries != [] && WellFormed(entries)
      requires |entries| <= availableEntries && Retained(entries) <= availableBytes
      modifies this`availableEntries, this`availableBytes, this`accepted, this`submitted
      ensures result.Submitted? || result.NotTaken?
      ensures Optimal(chunks, entries) && forall c <- chunks :: Weight(c) <= BATCH_BYTES
      ensures result.Submitted? ==>
                && accepted == entries[|entries| - 1].index && (forall c <- chunks :: takes(c))
                && Taken(old(submitted), old(availableEntries), old(availableBytes), entries)
      ensures result.NotTaken? ==>
                && accepted == old(accepted) && result.chunk < |chunks| && !takes(chunks[result.chunk])
                && Taken(old(submitted), old(availableEntries), old(availableBytes), Flat(chunks[..result.chunk]))
      ensures Valid() <==> result.NotTaken? || Covers(entries[|entries| - 1].index)
      ensures old(accepted) < entries[0].index ==> Valid()
    {
      chunks := Chunk(entries);
      result := Submit(chunks, takes);
      if result.NotTaken? {
        return;
      }
      Accept(entries);
    }

    /** The worker holds these entries now, and they use its capacity. */
    ghost predicate Taken(submitted: seq<Applied>, availableEntries: nat, availableBytes: nat, entries: seq<Applied>)
      reads this`submitted, this`availableEntries, this`availableBytes
    {
      && this.submitted == submitted + entries
      && this.availableEntries == availableEntries - |entries|
      && this.availableBytes == availableBytes - Retained(entries)
    }

    method Accept(entries: seq<Applied>)
      requires Valid() && entries != [] && WellFormed(entries)
      modifies this`accepted
      ensures Valid() <==> Covers(entries[|entries| - 1].index)
      ensures old(accepted) < entries[0].index ==> Valid()
      ensures accepted == entries[|entries| - 1].index
    {
      IndexesRise(entries, 0, |entries| - 1);
      accepted := entries[|entries| - 1].index;
    }

    /** The worker takes one more chunk. */
    method Take(ghost s: seq<Applied>, ghost n: nat, ghost bytes: nat, ghost before: seq<Applied>, chunk: seq<Applied>)
      requires Taken(s, n, bytes, before) && |before + chunk| <= n && Retained(before + chunk) <= bytes
      modifies this`submitted, this`availableEntries, this`availableBytes
      ensures Taken(s, n, bytes, before + chunk)
    {
      RetainedSplit(before, chunk);
      Associates(s, before, chunk);
      availableEntries, availableBytes := availableEntries - |chunk|, availableBytes - Retained(chunk);
      submitted := submitted + chunk;
    }

    /** Chunks go to the worker in their order up to the first that it does not take; each uses capacity. */
    method Submit(chunks: seq<seq<Applied>>, takes: seq<Applied> -> bool) returns (result: Submission)
      requires |Flat(chunks)| <= availableEntries && Retained(Flat(chunks)) <= availableBytes
      modifies this`submitted, this`availableEntries, this`availableBytes
      ensures result.Submitted? || result.NotTaken?
      ensures result.Submitted? ==>
                && (forall c <- chunks :: takes(c))
                && Taken(old(submitted), old(availableEntries), old(availableBytes), Flat(chunks))
      ensures result.NotTaken? ==>
                && result.chunk < |chunks| && !takes(chunks[result.chunk])
                && Taken(old(submitted), old(availableEntries), old(availableBytes), Flat(chunks[..result.chunk]))
    {
      ghost var s, n, bytes := submitted, availableEntries, availableBytes;
      for i := 0 to |chunks|
        invariant forall j | 0 <= j < i :: takes(chunks[j])
        invariant Taken(s, n, bytes, Flat(chunks[..i]))
      {
        if !takes(chunks[i]) {
          return NotTaken(i);
        }
        PartOfFlat(chunks, i);
        Take(s, n, bytes, Flat(chunks[..i]), chunks[i]);
      }
      assert chunks[..|chunks|] == chunks;
      return Submitted;
    }

    /** A query fails if the worker has stopped, is turned away if too many wait, or queues. */
    method Query(query: nat, lock: bool)
      requires Valid()
      modifies this
      ensures Valid() && accepted == old(accepted) && old(replies) <= replies
      ensures running == old(running)
      ensures stopped == old(stopped) + (if running then [] else [query])
      ensures overloaded == old(overloaded) + (if running && |old(queries)| >= QUERY_LIMIT then [query] else [])
      ensures admitted ==
              old(admitted) + (if running && |old(queries)| < QUERY_LIMIT then [Pending(query, accepted)] else [])
      ensures running && |old(queries)| < QUERY_LIMIT && lock ==>
                forall i | 0 <= i < |queries| :: queries[i].fence > old(durable)
    {
      if !running {
        stopped := stopped + [query];
        return;
      }
      var fence := accepted;
      if |queries| >= QUERY_LIMIT {
        overloaded := overloaded + [query];
        return;
      }
      AskKeeps(accepted, queries, admitted, replies, query);
      queries := queries + [Pending(query, fence)];
      admitted := admitted + [Pending(query, fence)];
      queryCount := |queries|;
      CompleteQueries(lock);
    }

    /**
    Answers, first in first out, every query whose fence is durable, unless the store's lock is
    taken. The worker may move on between the reading of its durable index and the locking.
    */
    method CompleteQueries(lock: bool)
      requires Valid()
      modifies this`durable, this`store, this`availableEntries, this`availableBytes
      modifies this`queries, this`queryCount, this`replies
      ensures Valid() && old(durable) <= durable && (old(store).index == accepted ==> store == old(store))
      ensures old(replies) <= replies
      ensures forall i | |old(replies)| <= i < |replies| :: replies[i].answer == FromStore(store.index)
      ensures lock ==> forall i | 0 <= i < |queries| :: queries[i].fence > old(durable)
      ensures !lock ==> replies == old(replies)
    {
      var published := durable;
      if queryCount == 0 {
        return;
      }
      if queries[0].fence > published {
        return;
      }
      Progress();
      if !lock {
        return;
      }
      var index := store.index;
      ghost var held := store;
      while queries != [] && queries[0].fence <= published
        invariant store == held
        invariant durable <= store.index <= accepted && published <= index && old(durable) <= durable
        invariant Queue(accepted, queries, admitted, replies)
        invariant old(replies) <= replies
        invariant forall i | |old(replies)| <= i < |replies| :: replies[i].answer == FromStore(store.index)
        decreases |queries|
      {
        ReplyKeeps(accepted, queries, admitted, replies, FromStore(index));
        replies := replies + [Replied(queries[0], FromStore(index))];
        queries := queries[1..];
      }
      queryCount := |queries|;
    }

    /** Every waiting query fails, and none waits any longer. */
    method FailQueries()
      requires Valid()
      modifies this`queries, this`queryCount, this`replies
      ensures Valid() && queries == [] && Asked(replies) == admitted
      ensures old(replies) <= replies
      ensures forall i | |old(replies)| <= i < |replies| :: replies[i].answer == Failed
    {
      while queries != []
        invariant Queue(accepted, queries, admitted, replies)
        invariant old(replies) <= replies
        invariant forall i | |old(replies)| <= i < |replies| :: replies[i].answer == Failed
        decreases |queries|
      {
        ReplyKeeps(accepted, queries, admitted, replies, Failed);
        replies := replies + [Replied(queries[0], Failed)];
        queries := queries[1..];
      }
      queryCount := 0;
    }

    /**
    A snapshot replaces the state only when the worker is idle and no query waits. The worker is
    shut down for it: a snapshot that the store refuses, because it is invalid, behind, in
    conflict with the state at its index, or not journaled, leaves the worker stopped.
    */
    method InstallSnapshot(s: Snapshot, busy: bool, lock: bool, journaled: bool) returns (ok: bool)
      requires Valid() && (!busy ==> durable == accepted)
      modifies this
      ensures Valid() && admitted == old(admitted) && old(replies) <= replies
      ensures ok ==>
                && !busy && queries == [] && running
                && RestoreSnapshot(old(store), s) == Some(store) && accepted == durable == store.index
                && (journaled || store == old(store))
      ensures !ok ==> accepted == old(accepted) && (running ==> busy || queries != [])
      ensures !busy && (lock || old(queries) == []) ==> queries == []
      ensures !ok && !busy && queries == [] ==>
                !running && (RestoreSnapshot(old(store), s).None? || (!journaled && Restored(s) != old(store)))
    {
      if busy {
        return false;
      }
      CompleteQueries(lock);
      assert queries != [] ==> queries[0].fence <= accepted;
      if queryCount != 0 {
        return false;
      }
      running := false;
      var installed := RestoreSnapshot(store, s);
      if installed.None? {
        return false;
      }
      if !(store.hasApplied && installed.value == store) && !journaled {
        return false;
      }
      store := installed.value;
      durable, accepted, running := store.index, store.index, true;
      return true;
    }
  }

  predicate Consecutive(entries: seq<Applied>, i: nat)
    requires i < |entries| - 1
  {
    entries[i].index + 1 == entries[i + 1].index
  }

  predicate AllConsecutive(entries: seq<Applied>) {
    forall i | 0 <= i < |entries| - 1 :: Consecutive(entries, i)
  }

  /** One of the entries alone weighs more than a chunk may. */
  ghost predicate TooHeavy(entries: seq<Applied>) {
    exists e <- entries :: Weight([e]) > BATCH_BYTES
  }

  predicate WellFormed(entries: seq<Applied>) {
    && (forall i | 0 <= i < |entries| :: PayloadBytes(entries[i]) <= BATCH_BYTES)
    && AllConsecutive(entries)
  }

  lemma WellFormedMeans(entries: seq<Applied>)
    ensures WellFormed(entries) <==> !TooHeavy(entries) && AllConsecutive(entries)
  {
    forall e <- entries ensures Weight([e]) == PayloadBytes(e) {
      PayloadIsWeight(e);
    }
    if !TooHeavy(entries) {
      assert forall i | 0 <= i < |entries| :: entries[i] in entries;
    }
  }

  lemma {:induction false} IndexesRise(entries: seq<Applied>, i: nat, j: nat)
    requires i <= j < |entries| && AllConsecutive(entries)
    ensures entries[i].index + (j - i) == entries[j].index
  {
    if i < j {
      IndexesRise(entries, i, j - 1);
      assert Consecutive(entries, j - 1);
    }
  }
}
