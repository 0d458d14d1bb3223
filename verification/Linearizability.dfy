/**
What a history means. A history is a sequence of completed operations, each with the
interval in which it ran; operations are named by their position in the history.

`Linearizable` is the global notion, over all keys at once. `Searchable` is the notion the
checker decides, for the operations of one key. `Locality` shows that they agree: orders
found key by key combine into one global order, and a global order projects onto each key.
*/
module Linearizability {
  import opened Kv

  datatype Reply = Reply(status: string, result: Option<Outcome>)

  datatype Event = Event(command: Command, start: int, end: int, reply: Reply)

  // ---------- Orders ----------

  /** A position of a supported operation with a proper interval. */
  predicate Usable(h: seq<Event>, x: nat) {
    x < |h| && Supported(h[x].command) && h[x].start <= h[x].end
  }

  /** Strict real-time precedence: touching intervals are concurrent. */
  predicate Before(h: seq<Event>, a: nat, b: nat) {
    a < |h| && b < |h| && h[a].end < h[b].start
  }

  ghost predicate Within(h: seq<Event>, order: seq<nat>) {
    forall i | 0 <= i < |order| :: Usable(h, order[i])
  }

  ghost function Positions(n: nat): (s: set<nat>)
    ensures forall i: nat :: i in s <==> i < n
  {
    if n == 0 then {} else Positions(n - 1) + {n - 1}
  }

  /** `order` lists every member of `s` exactly once. */
  ghost predicate Enumerates(order: seq<nat>, s: set<nat>) {
    && (forall x: nat :: x in order <==> x in s)
    && (forall i, j | 0 <= i < j < |order| :: order[i] != order[j])
  }

  ghost predicate Respects(h: seq<Event>, order: seq<nat>) {
    forall i, j | 0 <= i < j < |order| :: !Before(h, order[j], order[i])
  }

  // ---------- Replies explained by one key, and by a whole store ----------

  ghost predicate Legal(h: seq<Event>, order: seq<nat>, v: Option<string>) {
    order == [] ||
    (&& Usable(h, order[0])
     && var (v', out) := Transition(v, h[order[0]].command);
        h[order[0]].reply.result == Some(out) && Legal(h, order[1..], v'))
  }

  ghost predicate Explains(h: seq<Event>, order: seq<nat>, kv: map<string, string>) {
    order == [] ||
    (&& Usable(h, order[0])
     && var (kv', out) := Plain(kv, h[order[0]].command);
        h[order[0]].reply.result == Some(out) && Explains(h, order[1..], kv'))
  }

  ghost predicate Linearizes(h: seq<Event>, order: seq<nat>, kv: map<string, string>) {
    Enumerates(order, Positions(|h|)) && Respects(h, order) && Explains(h, order, kv)
  }

  ghost predicate Linearizable(h: seq<Event>, kv: map<string, string>) {
    exists order :: Linearizes(h, order, kv)
  }

  ghost predicate KeyOrder(h: seq<Event>, order: seq<nat>, remaining: set<nat>, v: Option<string>) {
    Enumerates(order, remaining) && Respects(h, order) && Legal(h, order, v)
  }

  /** The remaining operations have a legal order from `v` that respects real time. */
  ghost predicate Searchable(h: seq<Event>, remaining: set<nat>, v: Option<string>) {
    exists order :: KeyOrder(h, order, remaining, v)
  }

  // ---------- The same order conditions, element by element ----------

  ghost predicate Chain(h: seq<Event>, order: seq<nat>) {
    order == [] ||
    ((forall y <- order[1..] :: y != order[0] && !Before(h, y, order[0])) && Chain(h, order[1..]))
  }

  lemma {:induction false} ChainIsPairwise(h: seq<Event>, order: seq<nat>)
    ensures Chain(h, order) <==>
            Respects(h, order) && forall i, j | 0 <= i < j < |order| :: order[i] != order[j]
  {
    if order != [] {
      var rest := order[1..];
      ChainIsPairwise(h, rest);
      if Chain(h, order) {
        forall i, j | 0 <= i < j < |order| ensures order[i] != order[j] && !Before(h, order[j], order[i]) {
          assert order[j] == rest[j - 1] && rest[j - 1] in rest;
          assert i > 0 ==> order[i] == rest[i - 1];
        }
      } else if forall y <- rest :: y != order[0] && !Before(h, y, order[0]) {
        if i, j :| 0 <= i < j < |rest| && (rest[i] == rest[j] || Before(h, rest[j], rest[i])) {
          assert order[i + 1] == rest[i] && order[j + 1] == rest[j];
        }
      } else {
        var y :| y in rest && (y == order[0] || Before(h, y, order[0]));
        var j :| 0 <= j < |rest| && rest[j] == y;
        assert order[j + 1] == y;
      }
    }
  }

  // ---------- One step of a search ----------

  /** `x` may come first: nothing that remains precedes it, and its reply fits `v`. */
  predicate First(h: seq<Event>, remaining: set<nat>, v: Option<string>, x: nat) {
    && x in remaining && Usable(h, x)
    && (forall y <- remaining :: !Before(h, y, x))
    && h[x].reply.result == Some(Transition(v, h[x].command).1)
  }

  lemma OrderFromFirst(h: seq<Event>, remaining: set<nat>, v: Option<string>, x: nat)
    requires First(h, remaining, v, x)
    requires Searchable(h, remaining - {x}, Transition(v, h[x].command).0)
    ensures Searchable(h, remaining, v)
  {
    var rest :| KeyOrder(h, rest, remaining - {x}, Transition(v, h[x].command).0);
    var order := [x] + rest;
    assert order[1..] == rest;
    ChainIsPairwise(h, rest);
    ChainIsPairwise(h, order);
    assert KeyOrder(h, order, remaining, v);
  }

  lemma FirstFromOrder(h: seq<Event>, order: seq<nat>, remaining: set<nat>, v: Option<string>)
    requires KeyOrder(h, order, remaining, v) && remaining != {}
    ensures order != [] && First(h, remaining, v, order[0])
    ensures Searchable(h, remaining - {order[0]}, Transition(v, h[order[0]].command).0)
  {
    var y :| y in remaining;
    assert y in order;
    var x, rest := order[0], order[1..];
    assert order == [x] + rest;
    ChainIsPairwise(h, rest);
    ChainIsPairwise(h, order);
    forall y <- remaining ensures !Before(h, y, x) {
      assert y in order;
    }
    assert KeyOrder(h, rest, remaining - {x}, Transition(v, h[x].command).0);
  }

  /**
  Exactness of one search step: operations remain orderable exactly when none remain, or
  some operation can come first and the others remain orderable after it.
  */
  lemma SearchStep(h: seq<Event>, remaining: set<nat>, v: Option<string>)
    ensures Searchable(h, remaining, v) <==>
            remaining == {} ||
            exists x <- remaining :: First(h, remaining, v, x) &&
              Searchable(h, remaining - {x}, Transition(v, h[x].command).0)
  {
    if remaining == {} {
      assert KeyOrder(h, [], remaining, v);
    } else if order :| KeyOrder(h, order, remaining, v) {
      FirstFromOrder(h, order, remaining, v);
    }
    if x :| x in remaining && First(h, remaining, v, x) &&
            Searchable(h, remaining - {x}, Transition(v, h[x].command).0) {
      OrderFromFirst(h, remaining, v, x);
    }
  }

  // ---------- Projection on one key ----------

  ghost function Project(h: seq<Event>, order: seq<nat>, key: string): (r: seq<nat>)
    ensures forall x :: x in r <==> x in order && x < |h| && h[x].command.key == key
  {
    if order == [] then []
    else
      assert order == [order[0]] + order[1..];
      var rest := Project(h, order[1..], key);
      if order[0] < |h| && h[order[0]].command.key == key then [order[0]] + rest else rest
  }

  /** What the first operation of an order demands of the projections on every key. */
  lemma LegalAfterFirst(h: seq<Event>, order: seq<nat>, kv: map<string, string>, k: string)
    requires order != [] && Usable(h, order[0])
    ensures var c := h[order[0]].command;
            Legal(h, Project(h, order, k), Lookup(kv, k)) <==>
            Legal(h, Project(h, order[1..], k), Lookup(Plain(kv, c).0, k)) &&
            (k == c.key ==> h[order[0]].reply.result == Some(Plain(kv, c).1))
  {
    var c := h[order[0]].command;
    PlainTouchesOneKey(kv, c);
    if k == c.key {
      assert Project(h, order, k)[1..] == Project(h, order[1..], k);
    }
  }

  /** A store explains an order exactly when each key explains its own part of it. */
  lemma {:induction false} ExplainsByKey(h: seq<Event>, order: seq<nat>, kv: map<string, string>)
    requires Within(h, order)
    ensures Explains(h, order, kv) <==> forall k :: Legal(h, Project(h, order, k), Lookup(kv, k))
  {
    if order != [] {
      var c := h[order[0]].command;
      ExplainsByKey(h, order[1..], Plain(kv, c).0);
      forall k
        ensures Legal(h, Project(h, order, k), Lookup(kv, k)) <==>
                Legal(h, Project(h, order[1..], k), Lookup(Plain(kv, c).0, k)) &&
                (k == c.key ==> h[order[0]].reply.result == Some(Plain(kv, c).1))
      {
        LegalAfterFirst(h, order, kv, k);
      }
      if forall k :: Legal(h, Project(h, order, k), Lookup(kv, k)) {
        assert Legal(h, Project(h, order, c.key), Lookup(kv, c.key));
      }
    }
  }

  /** A projection keeps the order of what it keeps. */
  lemma {:induction false} ProjectKeepsChain(h: seq<Event>, order: seq<nat>, key: string)
    requires Chain(h, order)
    ensures Chain(h, Project(h, order, key))
  {
    if order != [] {
      ProjectKeepsChain(h, order[1..], key);
      var r := Project(h, order, key);
      assert r != [] && r[0] == order[0] ==> r[1..] == Project(h, order[1..], key) || r == Project(h, order[1..], key);
    }
  }

  ghost function KeyGroup(h: seq<Event>, key: string): set<nat> {
    set i: nat | i < |h| && h[i].command.key == key
  }

  // ---------- Combining key orders ----------

  /** An operation with a point of its interval at which it takes effect. */
  datatype Stamp = Stamp(op: nat, at: int)

  ghost predicate InInterval(h: seq<Event>, x: Stamp) {
    Usable(h, x.op) && h[x.op].start <= x.at <= h[x.op].end
  }

  /** Points lie in their intervals and never fall; operations do not repeat. */
  ghost predicate Rising(h: seq<Event>, s: seq<Stamp>) {
    s == [] ||
    (&& InInterval(h, s[0])
     && (forall y <- s[1..] :: s[0].at <= y.at && s[0].op != y.op)
     && Rising(h, s[1..]))
  }

  ghost function Ops(s: seq<Stamp>): (r: seq<nat>)
    ensures forall x :: x in r <==> exists y <- s :: y.op == x
  {
    if s == [] then []
    else
      assert s == [s[0]] + s[1..];
      [s[0].op] + Ops(s[1..])
  }

  lemma {:induction false} RisingIsChain(h: seq<Event>, s: seq<Stamp>)
    requires Rising(h, s)
    ensures Chain(h, Ops(s)) && Within(h, Ops(s))
    ensures forall x <- s :: InInterval(h, x)
  {
    if s != [] {
      RisingIsChain(h, s[1..]);
      assert s == [s[0]] + s[1..];
      assert Ops(s)[1..] == Ops(s[1..]);
      forall y <- Ops(s)[1..] ensures y != s[0].op && !Before(h, y, s[0].op) {
        var x :| x in s[1..] && x.op == y;
      }
    }
  }

  /** Each operation takes effect at the latest start among itself and those before it. */
  ghost function Stamps(h: seq<Event>, order: seq<nat>, floor: int): (s: seq<Stamp>)
    requires Within(h, order)
    ensures Ops(s) == order
  {
    if order == [] then []
    else
      assert Usable(h, order[0]);
      var at := if floor < h[order[0]].start then h[order[0]].start else floor;
      var rest := Stamps(h, order[1..], at);
      assert ([Stamp(order[0], at)] + rest)[1..] == rest;
      [Stamp(order[0], at)] + rest
  }

  lemma {:induction false} StampsRise(h: seq<Event>, order: seq<nat>, floor: int)
    requires Within(h, order) && Chain(h, order)
    requires forall x <- order :: floor <= h[x].end
    ensures Rising(h, Stamps(h, order, floor))
    ensures forall x <- Stamps(h, order, floor) :: floor <= x.at
  {
    if order != [] {
      var at := if floor < h[order[0]].start then h[order[0]].start else floor;
      forall x <- order[1..] ensures at <= h[x].end {
        assert x in order && !Before(h, x, order[0]);
      }
      StampsRise(h, order[1..], at);
      var s := Stamps(h, order, floor);
      var rest := Stamps(h, order[1..], at);
      assert s == [Stamp(order[0], at)] + rest && s[1..] == rest;
      assert order[0] in order;
      forall y <- rest ensures at <= y.at && order[0] != y.op {
        assert y.op in Ops(rest);
      }
    }
  }

  ghost function Merge(a: seq<Stamp>, b: seq<Stamp>): seq<Stamp> {
    if a == [] then b
    else if b == [] then a
    else if a[0].at <= b[0].at then [a[0]] + Merge(a[1..], b)
    else [b[0]] + Merge(a, b[1..])
  }

  lemma {:induction false} MergeMembers(a: seq<Stamp>, b: seq<Stamp>)
    ensures forall x :: x in Merge(a, b) <==> x in a || x in b
  {
    if a != [] && b != [] {
      if a[0].at <= b[0].at {
        MergeMembers(a[1..], b);
        assert a == [a[0]] + a[1..];
      } else {
        MergeMembers(a, b[1..]);
        assert b == [b[0]] + b[1..];
      }
    }
  }

  lemma {:induction false} MergeRises(h: seq<Event>, a: seq<Stamp>, b: seq<Stamp>)
    requires Rising(h, a) && Rising(h, b)
    requires forall x <- a, y <- b :: x.op != y.op
    ensures Rising(h, Merge(a, b))
  {
    if a != [] && b != [] {
      assert a == [a[0]] + a[1..] && b == [b[0]] + b[1..];
      var r := Merge(a, b);
      if a[0].at <= b[0].at {
        MergeRises(h, a[1..], b);
        MergeMembers(a[1..], b);
        assert r[1..] == Merge(a[1..], b);
      } else {
        MergeRises(h, a, b[1..]);
        MergeMembers(a, b[1..]);
        assert r[1..] == Merge(a, b[1..]);
      }
    }
  }

  lemma HasMember(s: seq<nat>)
    ensures s != [] ==> exists x :: x in s
  {
    if s != [] {
      assert s[0] in s;
    }
  }

  ghost predicate OnKey(h: seq<Event>, x: Stamp, key: string) {
    x.op < |h| && h[x.op].command.key == key
  }

  /** Merging one key's operations into those of other keys disturbs no key's order. */
  lemma {:induction false} MergeKeepsKeys(h: seq<Event>, a: seq<Stamp>, b: seq<Stamp>, key: string, k: string)
    requires forall x <- a :: OnKey(h, x, key)
    requires forall y <- b :: !OnKey(h, y, key)
    ensures Project(h, Ops(Merge(a, b)), k) == if k == key then Ops(a) else Project(h, Ops(b), k)
  {
    var r := Merge(a, b);
    if a == [] {
      HasMember(Project(h, Ops(b), key));
    } else if b == [] || a[0].at <= b[0].at {
      assert r[1..] == Merge(a[1..], b);
      MergeKeepsKeys(h, a[1..], b, key, k);
      assert OnKey(h, a[0], key);
      assert Ops(r)[1..] == Ops(Merge(a[1..], b)) && Ops(a)[1..] == Ops(a[1..]);
    } else {
      assert r[1..] == Merge(a, b[1..]);
      MergeKeepsKeys(h, a, b[1..], key, k);
      assert !OnKey(h, b[0], key);
      assert Ops(r)[1..] == Ops(Merge(a, b[1..])) && Ops(b)[1..] == Ops(b[1..]);
    }
  }

  lemma {:induction false} LowFloor(h: seq<Event>, order: seq<nat>) returns (floor: int)
    requires Within(h, order)
    ensures forall x <- order :: floor <= h[x].end
  {
    if order == [] {
      floor := 0;
    } else {
      var rest := LowFloor(h, order[1..]);
      floor := if rest < h[order[0]].end then rest else h[order[0]].end;
      assert order == [order[0]] + order[1..];
    }
  }

  /** The operations of one key, each stamped with a point of its interval. */
  lemma StampKey(h: seq<Event>, key: string, v: Option<string>) returns (a: seq<Stamp>)
    requires forall i: nat | i < |h| :: Usable(h, i)
    requires Searchable(h, KeyGroup(h, key), v)
    ensures Rising(h, a) && Legal(h, Ops(a), v)
    ensures forall x <- a :: OnKey(h, x, key)
    ensures forall i: nat | i < |h| && h[i].command.key == key :: i in Ops(a)
  {
    var order :| KeyOrder(h, order, KeyGroup(h, key), v);
    forall i | 0 <= i < |order| ensures Usable(h, order[i]) {
      assert order[i] in order;
    }
    ChainIsPairwise(h, order);
    var floor := LowFloor(h, order);
    StampsRise(h, order, floor);
    a := Stamps(h, order, floor);
    forall x <- a ensures OnKey(h, x, key) {
      assert x.op in Ops(a);
    }
  }

  lemma MergedIsLegal(h: seq<Event>, a: seq<Stamp>, b: seq<Stamp>, key: string, kv: map<string, string>)
    requires forall x <- a :: OnKey(h, x, key)
    requires forall y <- b :: !OnKey(h, y, key)
    requires Legal(h, Ops(a), Lookup(kv, key))
    requires forall k :: Legal(h, Project(h, Ops(b), k), Lookup(kv, k))
    ensures forall k :: Legal(h, Project(h, Ops(Merge(a, b)), k), Lookup(kv, k))
  {
    forall k ensures Legal(h, Project(h, Ops(Merge(a, b)), k), Lookup(kv, k)) {
      MergeKeepsKeys(h, a, b, key, k);
      assert k != key ==> Legal(h, Project(h, Ops(b), k), Lookup(kv, k));
    }
  }

  lemma MergedOps(a: seq<Stamp>, b: seq<Stamp>)
    ensures forall i :: i in Ops(Merge(a, b)) <==> i in Ops(a) || i in Ops(b)
  {
    MergeMembers(a, b);
  }

  ghost predicate OnKeys(h: seq<Event>, x: Stamp, keys: seq<string>) {
    x.op < |h| && h[x.op].command.key in keys
  }

  /** Key orders, one per key, merged into a single stamped order. */
  lemma {:induction false} Combine(h: seq<Event>, keys: seq<string>, kv: map<string, string>) returns (s: seq<Stamp>)
    requires forall i, j | 0 <= i < j < |keys| :: keys[i] != keys[j]
    requires forall i: nat | i < |h| :: Usable(h, i)
    requires forall k <- keys :: Searchable(h, KeyGroup(h, k), Lookup(kv, k))
    ensures Rising(h, s)
    ensures forall x <- s :: OnKeys(h, x, keys)
    ensures forall k :: Legal(h, Project(h, Ops(s), k), Lookup(kv, k))
    ensures forall i: nat | i < |h| && h[i].command.key in keys :: i in Ops(s)
  {
    if keys == [] {
      s := [];
    } else {
      var key, rest := keys[0], keys[1..];
      assert keys == [key] + rest;
      var b := Combine(h, rest, kv);
      var a := StampKey(h, key, Lookup(kv, key));
      forall y <- b ensures !OnKey(h, y, key) {
        assert OnKeys(h, y, rest);
      }
      s := Merge(a, b);
      MergeRises(h, a, b);
      MergedIsLegal(h, a, b, key, kv);
      MergedOps(a, b);
      MergeMembers(a, b);
      forall x <- s ensures OnKeys(h, x, keys) {
        assert x in a ==> OnKey(h, x, key);
        assert x in b ==> OnKeys(h, x, rest);
      }
    }
  }

  lemma KeysCombine(h: seq<Event>, keys: seq<string>, kv: map<string, string>)
    requires forall i, j | 0 <= i < j < |keys| :: keys[i] != keys[j]
    requires forall i: nat | i < |h| :: Usable(h, i) && h[i].command.key in keys
    requires forall k <- keys :: Searchable(h, KeyGroup(h, k), Lookup(kv, k))
    ensures Linearizable(h, kv)
  {
    var s := Combine(h, keys, kv);
    RisingIsChain(h, s);
    ChainIsPairwise(h, Ops(s));
    ExplainsByKey(h, Ops(s), kv);
    assert Linearizes(h, Ops(s), kv);
  }

  lemma ProjectsOnKey(h: seq<Event>, order: seq<nat>, kv: map<string, string>, k: string)
    requires Linearizes(h, order, kv) && Within(h, order)
    ensures Searchable(h, KeyGroup(h, k), Lookup(kv, k))
  {
    ExplainsByKey(h, order, kv);
    ChainIsPairwise(h, order);
    var r := Project(h, order, k);
    ProjectKeepsChain(h, order, k);
    ChainIsPairwise(h, r);
    assert KeyOrder(h, r, KeyGroup(h, k), Lookup(kv, k));
  }

  /**
  Locality. A history is linearizable exactly when, key by key, the operations of that key
  have a legal order that respects strict real time.
  */
  lemma Locality(h: seq<Event>, keys: seq<string>, kv: map<string, string>)
    requires forall i, j | 0 <= i < j < |keys| :: keys[i] != keys[j]
    requires forall i: nat | i < |h| :: Usable(h, i) && h[i].command.key in keys
    ensures Linearizable(h, kv) <==> forall k <- keys :: Searchable(h, KeyGroup(h, k), Lookup(kv, k))
  {
    if forall k <- keys :: Searchable(h, KeyGroup(h, k), Lookup(kv, k)) {
      KeysCombine(h, keys, kv);
    }
    if order :| Linearizes(h, order, kv) {
      forall i | 0 <= i < |order| ensures Usable(h, order[i]) {
        assert order[i] in order;
      }
      forall k <- keys ensures Searchable(h, KeyGroup(h, k), Lookup(kv, k)) {
        ProjectsOnKey(h, order, kv, k);
      }
    }
  }
}
