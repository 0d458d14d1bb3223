/**
When the checker's verdict carries over to the session-aware model, as a condition on the
history alone. A layout is what a history says of clients, sequences and intervals. Every
accepted history of a layout replays through the deduplicating model if and only if the
operations of each client are strictly separated in it.
*/
module Layouts {
  import opened Kv
  import opened Linearizability
  import opened Checker

  ghost predicate SameLayout(h: seq<Event>, g: seq<Event>) {
    && |h| == |g|
    && forall i | 0 <= i < |h| ::
         && g[i].command.client == h[i].command.client && g[i].command.sequence == h[i].command.sequence
         && g[i].start == h[i].start && g[i].end == h[i].end
  }

  /** Some linearization replays through the deduplicating model with the observed outcomes. */
  ghost predicate Replayable(h: seq<Event>, kv: map<string, string>) {
    exists order :: Linearizes(h, order, kv) && ReplaysThroughSessions(h, order, kv)
  }

  // ---------- A history that no order replays ----------

  /** A key of its own for each position. */
  function Key(i: nat): (k: string)
    ensures |k| == i
  {
    seq(i, _ => 'k')
  }

  /** Position `a` writes a key, `b` reads it and misses, and the others read keys of their own. */
  function Missing(e: Event, i: nat, a: nat, b: nat): Event {
    Event(
      Command(
        e.command.client, e.command.sequence, if i == a then Put else Get, Key(if i == b then a else i), "v", None),
      e.start, e.end, Reply("ok", Some(Outcome(if i == a then Some("v") else None, None, None))))
  }

  function Witness(h: seq<Event>, a: nat, b: nat): (g: seq<Event>)
    ensures |g| == |h| && forall i | 0 <= i < |h| :: g[i] == Missing(h[i], i, a, b)
  {
    seq(|h|, i requires 0 <= i < |h| => Missing(h[i], i, a, b))
  }

  /** One client's next operation starts exactly when its previous one ends. */
  ghost predicate Touch(h: seq<Event>, a: nat, b: nat) {
    && a < |h| && b < |h| && a != b && h[a].end == h[b].start
    && h[a].command.client == h[b].command.client && h[a].command.sequence < h[b].command.sequence
  }

  lemma UnseparatedTouch(h: seq<Event>) returns (a: nat, b: nat)
    requires Admissible(h) && !Separated(h)
    ensures Touch(h, a, b)
  {
    a, b :| SameClient(h, a, b) && Earlier(h, a, b) && !Before(h, a, b);
    assert InSession(h, a, b);
  }

  lemma WitnessIsAdmissible(h: seq<Event>, a: nat, b: nat)
    requires Admissible(h)
    ensures SameLayout(h, Witness(h, a, b)) && Admissible(Witness(h, a, b))
  {
    var g := Witness(h, a, b);
    forall i | 0 <= i < |g| ensures Completed(g[i]) && WellFormed(g[i]) {
      assert WellFormed(h[i]);
    }
    forall i, j | 0 <= i < j < |g| ensures Identity(g[i]) != Identity(g[j]) {
      assert Identity(h[i]) != Identity(h[j]);
    }
    forall x: nat, y: nat | SameClient(g, x, y) && Earlier(g, x, y) ensures InSession(g, x, y) {
      assert SameClient(h, x, y) && Earlier(h, x, y) && InSession(h, x, y);
    }
  }

  lemma AloneIsSearchable(g: seq<Event>, i: nat)
    requires Usable(g, i) && g[i].command.kind == Get && g[i].reply.result == Some(Outcome(None, None, None))
    ensures Searchable(g, {i}, None)
  {
    assert [i][1..] == [];
    assert KeyOrder(g, [i], {i}, None);
  }

  lemma PairIsSearchable(h: seq<Event>, a: nat, b: nat)
    requires Admissible(h) && Touch(h, a, b)
    ensures Searchable(Witness(h, a, b), {a, b}, None)
  {
    var g := Witness(h, a, b);
    WitnessIsAdmissible(h, a, b);
    assert WellFormed(g[a]) && WellFormed(g[b]);
    var order := [b, a];
    assert order[1..] == [a] && order[1..][1..] == [];
    assert Legal(g, [a], None);
    assert KeyOrder(g, order, {a, b}, None);
  }

  /** The operations of each key of the witness have a legal order. */
  lemma KeyIsSearchable(h: seq<Event>, a: nat, b: nat, i: nat)
    requires Admissible(h) && Touch(h, a, b) && i < |h|
    ensures Searchable(Witness(h, a, b), KeyGroup(Witness(h, a, b), Key(i)), None)
  {
    var g := Witness(h, a, b);
    WitnessIsAdmissible(h, a, b);
    assert forall j: nat | j < |g| :: |g[j].command.key| == if j == b then a else j;
    assert forall j: nat, l: nat | |Key(j)| == |Key(l)| :: j == l;
    if i == a {
      assert KeyGroup(g, Key(i)) == {a, b};
      PairIsSearchable(h, a, b);
    } else if i == b {
      assert KeyGroup(g, Key(i)) == {};
      assert KeyOrder(g, [], {}, None);
    } else {
      assert KeyGroup(g, Key(i)) == {i};
      assert WellFormed(g[i]);
      AloneIsSearchable(g, i);
    }
  }

  lemma WitnessIsLinearizable(h: seq<Event>, a: nat, b: nat)
    requires Admissible(h) && Touch(h, a, b)
    ensures Linearizable(Witness(h, a, b), map[])
  {
    var g := Witness(h, a, b);
    WitnessIsAdmissible(h, a, b);
    var keys := seq(|g|, i requires 0 <= i < |g| => Key(i));
    forall i: nat | i < |g| ensures Usable(g, i) && g[i].command.key in keys {
      assert WellFormed(g[i]);
      assert keys[if i == b then a else i] == g[i].command.key;
    }
    forall i, j | 0 <= i < j < |keys| ensures keys[i] != keys[j] {
      assert |keys[i]| != |keys[j]|;
    }
    forall k | k in keys ensures Searchable(g, KeyGroup(g, k), Lookup(map[], k)) {
      var i :| 0 <= i < |keys| && keys[i] == k;
      KeyIsSearchable(h, a, b, i);
    }
    Locality(g, keys, map[]);
  }

  // ---------- Why none does ----------

  /** After a write of a key and any number of reads, the key holds what was written. */
  lemma {:induction false} WriteStays(log: seq<Command>, i: nat, j: nat)
    requires i < j <= |log| && log[i].kind == Put && forall k | 0 <= k < |log| && k != i :: log[k].kind == Get
    ensures Lookup(PlainRun(map[], log[..j]), log[i].key) == Some(log[i].value)
  {
    assert log[..j][..j - 1] == log[..j - 1];
    if i < j - 1 {
      WriteStays(log, i, j - 1);
    }
  }

  /** An order that keeps the sessions puts the write first, and then the read would not miss. */
  lemma WitnessIsNotReplayable(h: seq<Event>, a: nat, b: nat)
    requires Admissible(h) && Touch(h, a, b)
    ensures !Replayable(Witness(h, a, b), map[])
  {
    var g := Witness(h, a, b);
    WitnessIsAdmissible(h, a, b);
    forall order | Linearizes(g, order, map[]) ensures !ReplaysThroughSessions(g, order, map[]) {
      ReplaysExactly(g, order, map[]);
      LinearizesWithin(g, order, map[]);
      if KeepsSessions(g, order) {
        var i, j := Placed(g, order, a), Placed(g, order, b);
        assert Fresh(Commands(g, order), i);
        ReadMisses(h, a, b, order, i, j);
      }
    }
  }

  ghost function Placed(g: seq<Event>, order: seq<nat>, x: nat): (i: nat)
    requires Enumerates(order, Positions(|g|)) && x < |g|
    ensures i < |order| && order[i] == x
  {
    assert x in order;
    var i: nat :| i < |order| && order[i] == x;
    i
  }

  lemma ReadMisses(h: seq<Event>, a: nat, b: nat, order: seq<nat>, i: nat, j: nat)
    requires Admissible(h) && Touch(h, a, b)
    requires var g := Witness(h, a, b); Linearizes(g, order, map[]) && Within(g, order)
    requires i < |order| && j < |order| && order[i] == a && order[j] == b
    ensures j < i && !Fresh(Commands(Witness(h, a, b), order), i)
  {
    var g := Witness(h, a, b);
    var log := Commands(g, order);
    ExplainsPointwise(g, order, map[], j);
    if i < j {
      forall k | 0 <= k < |log| && k != i ensures log[k].kind == Get {
        assert order[k] != a;
      }
      WriteStays(log, i, j);
    }
  }

  // ---------- The exact condition ----------

  lemma LayoutSeparates(h: seq<Event>, g: seq<Event>)
    requires SameLayout(h, g) && Separated(h)
    ensures Separated(g)
  {
    forall a: nat, b: nat | SameClient(g, a, b) && Earlier(g, a, b) ensures Before(g, a, b) {
      assert SameClient(h, a, b) && Earlier(h, a, b) && Before(h, a, b);
    }
  }

  /**
  For fixed clients, sequences and intervals, every admissible and linearizable history replays
  through the deduplicating model if and only if the operations of each client are strictly
  separated: a test on the history that can be made before it is checked.
  */
  lemma SeparationIsExact(h: seq<Event>)
    requires Admissible(h)
    ensures Separated(h) <==>
            forall g, kv | SameLayout(h, g) && Admissible(g) && Linearizable(g, kv) :: Replayable(g, kv)
  {
    if Separated(h) {
      forall g, kv | SameLayout(h, g) && Admissible(g) && Linearizable(g, kv) ensures Replayable(g, kv) {
        LayoutSeparates(h, g);
        var order :| Linearizes(g, order, kv);
        SessionsHideNothing(g, order, kv);
      }
    } else {
      var a, b := UnseparatedTouch(h);
      WitnessIsAdmissible(h, a, b);
      WitnessIsLinearizable(h, a, b);
      WitnessIsNotReplayable(h, a, b);
    }
  }
}
