/**
The bounded exhaustive history checker: screening of the events, session order of every
client, grouping by key, and the memoized depth-first search over (done set, value).

A set of history positions stands for the bit mask of the same operations. The clock is
an argument: `expired(n)` says whether the time limit has passed at the n-th visit.
*/
module Checker {
  import opened Kv
  import opened Linearizability

  datatype Verdict = Inconclusive | Invalid | Failed(key: string) | Passed

  const KEY_LIMIT := 250

  // ---------- What the checker demands of a history ----------

  /** A reply that says ok, carries a result, and whose error, if any, is empty. */
  predicate Completed(e: Event) {
    && e.reply.status == "ok" && e.reply.result.Some?
    && !(e.reply.result.value.error.Some? && e.reply.result.value.error.value != "")
  }

  predicate WellFormed(e: Event) {
    0 <= e.start <= e.end && e.command.sequence >= 1 && Supported(e.command)
  }

  function Identity(e: Event): (string, nat) {
    (e.command.client, e.command.sequence)
  }

  /** The stable order by start time. */
  predicate Earlier(h: seq<Event>, a: nat, b: nat) {
    a < |h| && b < |h| && (h[a].start < h[b].start || (h[a].start == h[b].start && a < b))
  }

  predicate InSession(h: seq<Event>, a: nat, b: nat) {
    a < |h| && b < |h| && h[a].end <= h[b].start && h[a].command.sequence < h[b].command.sequence
  }

  predicate SameClient(h: seq<Event>, a: nat, b: nat) {
    a < |h| && b < |h| && h[a].command.client == h[b].command.client
  }

  ghost predicate Screened(h: seq<Event>) {
    && (forall i | 0 <= i < |h| :: Completed(h[i]) && WellFormed(h[i]))
    && (forall i, j | 0 <= i < j < |h| :: Identity(h[i]) != Identity(h[j]))
  }

  /** Clients run one operation at a time, with increasing sequences. */
  ghost predicate Sequential(h: seq<Event>) {
    forall a: nat, b: nat | SameClient(h, a, b) && Earlier(h, a, b) :: InSession(h, a, b)
  }

  ghost predicate Admissible(h: seq<Event>) {
    h != [] && Screened(h) && Sequential(h)
  }

  method Screen(h: seq<Event>) returns (refused: Option<Verdict>)
    ensures refused.None? <==> Screened(h)
    ensures refused.Some? ==> refused.value.Inconclusive? || refused.value.Invalid?
    ensures refused == Some(Inconclusive) ==> exists e <- h :: !Completed(e)
  {
    var seen: set<(string, nat)> := {};
    for i := 0 to |h|
      invariant forall j | 0 <= j < i :: Completed(h[j]) && WellFormed(h[j]) && Identity(h[j]) in seen
      invariant forall j, k | 0 <= j < k < i :: Identity(h[j]) != Identity(h[k])
      invariant forall id <- seen :: exists j | 0 <= j < i :: Identity(h[j]) == id
    {
      if !Completed(h[i]) {
        return Some(Inconclusive);
      }
      if h[i].start < 0 || h[i].end < h[i].start {
        return Some(Invalid);
      }
      if Identity(h[i]) in seen || h[i].command.sequence < 1 {
        return Some(Invalid);
      }
      seen := seen + {Identity(h[i])};
      if !Supported(h[i].command) {
        return Some(Invalid);
      }
    }
    return None;
  }

  // ---------- Grouping by key or by client ----------

  ghost function Where<K>(labels: seq<K>, n: nat, name: K): (r: seq<nat>)
    requires n <= |labels|
  {
    if n == 0 then []
    else Where(labels, n - 1, name) + (if labels[n - 1] == name then [n - 1] else [])
  }

  lemma {:induction false} WhereMembers<K>(labels: seq<K>, n: nat, name: K)
    requires n <= |labels|
    ensures var r := Where(labels, n, name);
            && (forall i: nat :: i in r <==> i < n && labels[i] == name)
            && (forall i, j | 0 <= i < j < |r| :: r[i] < r[j])
  {
    if n != 0 {
      WhereMembers(labels, n - 1, name);
      var rest := Where(labels, n - 1, name);
      forall i | 0 <= i < |rest| ensures rest[i] < n - 1 {
        assert rest[i] in rest;
      }
    }
  }

  lemma {:induction false} DistinctSize(r: seq<nat>, s: set<nat>)
    requires Enumerates(r, s)
    ensures |s| == |r|
  {
    if r == [] {
      assert s == {};
    } else {
      var n := |r| - 1;
      assert r == r[..n] + [r[n]];
      DistinctSize(r[..n], s - {r[n]});
      assert s == (s - {r[n]}) + {r[n]};
    }
  }

  method GroupBy<K(==,!new)>(labels: seq<K>) returns (names: seq<K>, groups: map<K, seq<nat>>)
    ensures NamesGroups(names, groups)
    ensures forall k <- groups :: groups[k] == Where(labels, |labels|, k)
    ensures forall i | 0 <= i < |labels| :: labels[i] in groups
  {
    names, groups := [], map[];
    for i := 0 to |labels|
      invariant NamesGroups(names, groups)
      invariant GroupsHold(labels, i, groups)
    {
      names, groups := AddToGroup(labels, i, names, groups);
    }
    GroupsTell(labels, groups);
  }

  method AddToGroup<K(==,!new)>(labels: seq<K>, i: nat, names: seq<K>, groups: map<K, seq<nat>>)
    returns (names': seq<K>, groups': map<K, seq<nat>>)
    requires i < |labels| && NamesGroups(names, groups) && GroupsHold(labels, i, groups)
    ensures NamesGroups(names', groups') && GroupsHold(labels, i + 1, groups')
  {
    var k := labels[i];
    GroupStep(labels, i, groups);
    KeepName(names, groups, k, [i]);
    names' := if k in groups then names else names + [k];
    groups' := groups[k := GroupOf(groups, k) + [i]];
  }

  lemma GroupsTell<K(!new)>(labels: seq<K>, groups: map<K, seq<nat>>)
    requires GroupsHold(labels, |labels|, groups)
    ensures forall k <- groups :: groups[k] == Where(labels, |labels|, k)
  {
    forall k | k in groups ensures groups[k] == Where(labels, |labels|, k) {
      assert GroupOf(groups, k) == Where(labels, |labels|, k);
    }
  }

  ghost predicate NamesGroups<K(!new)>(names: seq<K>, groups: map<K, seq<nat>>) {
    && (forall k :: k in names <==> k in groups)
    && (forall a, b | 0 <= a < b < |names| :: names[a] != names[b])
  }

  ghost predicate GroupsHold<K(!new)>(labels: seq<K>, n: nat, groups: map<K, seq<nat>>)
    requires n <= |labels|
  {
    && (forall k :: GroupOf(groups, k) == Where(labels, n, k))
    && (forall j | 0 <= j < n :: labels[j] in groups)
  }

  function GroupOf<K>(groups: map<K, seq<nat>>, k: K): seq<nat> {
    if k in groups then groups[k] else []
  }

  lemma KeepName<K(!new)>(names: seq<K>, groups: map<K, seq<nat>>, k: K, group: seq<nat>)
    requires NamesGroups(names, groups)
    ensures NamesGroups(if k in groups then names else names + [k], groups[k := GroupOf(groups, k) + group])
  {
    if k !in groups {
      var more := names + [k];
      assert k !in names;
      forall a, b | 0 <= a < b < |more| ensures more[a] != more[b] {
        assert names[a] in names;
      }
    }
  }

  lemma GroupStep<K(!new)>(labels: seq<K>, n: nat, groups: map<K, seq<nat>>)
    requires n < |labels| && GroupsHold(labels, n, groups)
    ensures var k := labels[n]; GroupsHold(labels, n + 1, groups[k := GroupOf(groups, k) + [n]])
  {
    var k := labels[n];
    var more := groups[k := GroupOf(groups, k) + [n]];
    forall l ensures GroupOf(more, l) == Where(labels, n + 1, l) {
      assert GroupOf(groups, l) == Where(labels, n, l);
    }
  }

  // ---------- Sessions ----------

  /** Insertion by start time, after every earlier element and ties in history order. */
  function Insert(h: seq<Event>, stream: seq<nat>, x: nat): seq<nat> {
    if stream == [] then [x]
    else
      var n := |stream| - 1;
      if Earlier(h, stream[n], x) then stream + [x]
      else Insert(h, stream[..n], x) + [stream[n]]
  }

  function SortByStart(h: seq<Event>, stream: seq<nat>): seq<nat> {
    if stream == [] then []
    else Insert(h, SortByStart(h, stream[..|stream| - 1]), stream[|stream| - 1])
  }

  ghost predicate InTime(h: seq<Event>, r: seq<nat>) {
    forall i, j | 0 <= i < j < |r| :: Earlier(h, r[i], r[j])
  }

  lemma {:induction false} InsertMembers(h: seq<Event>, stream: seq<nat>, x: nat)
    ensures forall y :: y in Insert(h, stream, x) <==> y == x || y in stream
  {
    if stream != [] {
      var n := |stream| - 1;
      InsertMembers(h, stream[..n], x);
      assert stream == stream[..n] + [stream[n]];
    }
  }

  lemma {:induction false} InsertSorts(h: seq<Event>, stream: seq<nat>, x: nat)
    requires x < |h| && InTime(h, stream)
    requires forall i | 0 <= i < |stream| :: stream[i] < |h| && stream[i] != x
    ensures InTime(h, Insert(h, stream, x))
  {
    if stream != [] {
      var n := |stream| - 1;
      if !Earlier(h, stream[n], x) {
        InsertSorts(h, stream[..n], x);
        InsertMembers(h, stream[..n], x);
        var r := Insert(h, stream[..n], x);
        forall i | 0 <= i < |r| ensures Earlier(h, r[i], stream[n]) {
          assert r[i] in r;
        }
      }
    }
  }

  /** The sort by start time is stable and keeps the members of the stream. */
  lemma {:induction false} SortSorts(h: seq<Event>, stream: seq<nat>)
    requires forall y <- stream :: y < |h|
    requires forall i, j | 0 <= i < j < |stream| :: stream[i] != stream[j]
    ensures InTime(h, SortByStart(h, stream))
    ensures forall y :: y in SortByStart(h, stream) <==> y in stream
  {
    if stream != [] {
      var n := |stream| - 1;
      assert stream == stream[..n] + [stream[n]] && stream[n] in stream;
      assert forall y <- stream[..n] :: y in stream;
      SortSorts(h, stream[..n]);
      var r := SortByStart(h, stream[..n]);
      forall i | 0 <= i < |r| ensures r[i] < |h| && r[i] != stream[n] {
        assert r[i] in r;
      }
      InsertMembers(h, r, stream[n]);
      InsertSorts(h, r, stream[n]);
    }
  }

  ghost predicate Adjacent(h: seq<Event>, r: seq<nat>, k: int)
    requires 0 <= k < |r| - 1
  {
    InSession(h, r[k], r[k + 1])
  }

  /** If adjacent elements of a stream are in session then all of them are. */
  lemma {:induction false} AdjacentIsPairwise(h: seq<Event>, r: seq<nat>, i: nat, j: nat)
    requires forall k | 0 <= k < |r| :: r[k] < |h| && h[r[k]].start <= h[r[k]].end
    requires forall k | 0 <= k < |r| - 1 :: Adjacent(h, r, k)
    requires i < j < |r|
    ensures InSession(h, r[i], r[j])
  {
    assert Adjacent(h, r, j - 1);
    if i + 1 < j {
      AdjacentIsPairwise(h, r, i, j - 1);
    }
  }

  method CheckStream(h: seq<Event>, stream: seq<nat>) returns (ok: bool)
    requires forall y <- stream :: y < |h| && h[y].start <= h[y].end
    requires forall i, j | 0 <= i < j < |stream| :: stream[i] != stream[j]
    ensures ok <==> forall a, b | a in stream && b in stream && Earlier(h, a, b) :: InSession(h, a, b)
  {
    SortSorts(h, stream);
    var r := SortByStart(h, stream);
    forall k | 0 <= k < |r| ensures r[k] in stream && r[k] < |h| && h[r[k]].start <= h[r[k]].end {
      assert r[k] in r;
    }
    var k := 0;
    while k + 1 < |r|
      invariant forall i | 0 <= i < k && i < |r| - 1 :: Adjacent(h, r, i)
    {
      if h[r[k]].end > h[r[k + 1]].start || h[r[k]].command.sequence >= h[r[k + 1]].command.sequence {
        assert Earlier(h, r[k], r[k + 1]) && !InSession(h, r[k], r[k + 1]);
        return false;
      }
      k := k + 1;
    }
    forall a, b | a in stream && b in stream && Earlier(h, a, b) ensures InSession(h, a, b) {
      assert a in r && b in r;
      var i :| 0 <= i < |r| && r[i] == a;
      var j :| 0 <= j < |r| && r[j] == b;
      AdjacentIsPairwise(h, r, i, j);
    }
    return true;
  }

  /** The operations of one client are in session. */
  ghost predicate ClientInSession(h: seq<Event>, client: string) {
    forall a: nat, b: nat | SameClient(h, a, b) && h[a].command.client == client && Earlier(h, a, b) :: InSession(h, a, b)
  }

  lemma ClientsAreSequential(h: seq<Event>, names: seq<string>)
    requires forall n | 0 <= n < |names| :: ClientInSession(h, names[n])
    requires forall i | 0 <= i < |h| :: h[i].command.client in names
    ensures Sequential(h)
  {
    forall a: nat, b: nat | SameClient(h, a, b) && Earlier(h, a, b) ensures InSession(h, a, b) {
      assert h[a].command.client in names;
      var n :| 0 <= n < |names| && names[n] == h[a].command.client;
      assert ClientInSession(h, names[n]);
    }
  }

  method CheckSessions(h: seq<Event>) returns (ok: bool)
    requires forall i | 0 <= i < |h| :: h[i].start <= h[i].end
    ensures ok <==> Sequential(h)
  {
    var labels := seq(|h|, i requires 0 <= i < |h| => h[i].command.client);
    var names, streams := GroupBy(labels);
    for n := 0 to |names|
      invariant forall m | 0 <= m < n :: ClientInSession(h, names[m])
    {
      assert names[n] in names;
      WhereMembers(labels, |h|, names[n]);
      var good := CheckStream(h, streams[names[n]]);
      if !good {
        return false;
      }
      assert ClientInSession(h, names[n]);
    }
    forall i | 0 <= i < |h| ensures h[i].command.client in names {
      assert labels[i] in streams;
    }
    ClientsAreSequential(h, names);
    return true;
  }

  // ---------- The search ----------

  /**
  The memoized depth-first search over one key: a state is the set of operations already
  placed and the value they leave; each operation has the mask of those that must precede it.
  */
  class Search {
    const h: seq<Event>
    const group: seq<nat>
    const predecessors: seq<set<nat>>
    const maxStates: nat
    const expired: nat -> bool
    var visited: nat
    var memo: map<(set<nat>, Option<string>), bool>

    function All(): set<nat> {
      set x | x in group
    }

    static ghost function Mask(h: seq<Event>, group: seq<nat>, x: nat): set<nat> {
      set y | y in group && Before(h, y, x)
    }

    ghost predicate Valid()
      reads this
    {
      && |predecessors| == |group|
      && (forall i | 0 <= i < |group| :: Usable(h, group[i]) && predecessors[i] == Mask(h, group, group[i]))
      && (forall s <- memo :: memo[s] <==> Searchable(h, All() - s.0, s.1))
    }

    predicate Exhausted()
      reads this
    {
      visited > maxStates || expired(visited)
    }

    constructor (h: seq<Event>, group: seq<nat>, maxStates: nat, expired: nat -> bool, visited: nat)
      requires forall i | 0 <= i < |group| :: Usable(h, group[i])
      ensures Valid() && fresh(this)
      ensures this.h == h && this.group == group && this.maxStates == maxStates && this.expired == expired
      ensures this.visited == visited
    {
      var masks: seq<set<nat>> := [];
      for i := 0 to |group|
        invariant |masks| == i
        invariant forall j | 0 <= j < i :: masks[j] == Mask(h, group, group[j])
      {
        var mask: set<nat> := {};
        for k := 0 to |group|
          invariant mask == Mask(h, group[..k], group[i])
        {
          assert group[..k + 1] == group[..k] + [group[k]];
          assert Usable(h, group[k]) && Usable(h, group[i]);
          if group[k] != group[i] && h[group[k]].end < h[group[i]].start {
            mask := mask + {group[k]};
          }
        }
        assert group[..|group|] == group;
        masks := masks + [mask];
      }
      this.h, this.group, this.maxStates, this.expired := h, group, maxStates, expired;
      this.predecessors, this.visited, this.memo := masks, visited, map[];
    }

    /** Trying `x` next would complete the search. */
    ghost predicate Leads(done: set<nat>, value: Option<string>, x: nat) {
      && First(h, All() - done, value, x)
      && Searchable(h, All() - done - {x}, Transition(value, h[x].command).0)
    }

    /** The mask test admits exactly the operations that nothing remaining precedes. */
    lemma MaskTest(done: set<nat>, value: Option<string>, i: nat)
      requires Valid() && i < |group|
      ensures First(h, All() - done, value, group[i]) <==>
              && group[i] !in done && predecessors[i] <= done
              && h[group[i]].reply.result == Some(Transition(value, h[group[i]].command).1)
    {
      assert group[i] in group && Usable(h, group[i]);
      assert predecessors[i] == Mask(h, group, group[i]);
      assert predecessors[i] <= done <==> forall y <- All() - done :: !Before(h, y, group[i]);
    }

    /** The memoized search; no result means that the resource limit was reached. */
    method Visit(done: set<nat>, value: Option<string>) returns (found: Option<bool>)
      requires Valid() && done <= All()
      modifies this`visited, this`memo
      ensures Valid() && old(visited) <= visited
      ensures found.Some? ==> (found.value <==> Searchable(h, All() - done, value))
      ensures found.None? ==> Exhausted()
      decreases All() - done
    {
      if (done, value) in memo {
        return Some(memo[(done, value)]);
      }
      visited := visited + 1;
      if visited > maxStates || expired(visited) {
        return None;
      }
      if done == All() {
        SearchStep(h, All() - done, value);
        found := Some(true);
      } else {
        found := TryCandidates(done, value);
      }
      if found.Some? {
        memo := memo[(done, value) := found.value];
      }
    }

    /** The loop over the candidates of one search state. */
    method TryCandidates(done: set<nat>, value: Option<string>) returns (found: Option<bool>)
      requires Valid() && done < All()
      modifies this`visited, this`memo
      ensures Valid() && old(visited) <= visited
      ensures found.Some? ==> (found.value <==> Searchable(h, All() - done, value))
      ensures found.None? ==> Exhausted()
      decreases All() - done, 1
    {
      for i := 0 to |group|
        invariant Valid() && old(visited) <= visited
        invariant forall j | 0 <= j < i :: !Leads(done, value, group[j])
      {
        found := TryCandidate(done, value, i);
        if found != Some(false) {
          return;
        }
      }
      NoneLeads(done, value);
      return Some(false);
    }

    /** Places one candidate next, if the masks and its reply allow, and searches on. */
    method TryCandidate(done: set<nat>, value: Option<string>, i: nat) returns (found: Option<bool>)
      requires Valid() && done < All() && i < |group|
      modifies this`visited, this`memo
      ensures Valid() && old(visited) <= visited
      ensures found == Some(true) ==> Searchable(h, All() - done, value)
      ensures found == Some(false) ==> !Leads(done, value, group[i])
      ensures found.None? ==> Exhausted()
      decreases All() - done, 0
    {
      var x := group[i];
      assert x in group && Usable(h, x);
      MaskTest(done, value, i);
      if x in done || predecessors[i] - done != {} {
        return Some(false);
      }
      var (next, expected) := Transition(value, h[x].command);
      if h[x].reply.result != Some(expected) {
        return Some(false);
      }
      assert All() - (done + {x}) == All() - done - {x};
      found := Visit(done + {x}, next);
      if found == Some(true) {
        OrderFromFirst(h, All() - done, value, x);
      }
    }

    lemma NoneLeads(done: set<nat>, value: Option<string>)
      requires Valid() && done < All() && forall j | 0 <= j < |group| :: !Leads(done, value, group[j])
      ensures !Searchable(h, All() - done, value)
    {
      SearchStep(h, All() - done, value);
      forall x | x in All() - done ensures !Leads(done, value, x) {
        var j :| 0 <= j < |group| && group[j] == x;
      }
      assert All() - done != {};
    }
  }

  // ---------- The whole check ----------

  /**
  "Passed" means that the whole history, across all keys, is linearizable; "failed" means
  that it is not. Any other verdict on an admissible history comes from the limit on
  operations per key or from the resource limit.
  */
  method CheckHistory(h: seq<Event>, initial: map<string, string>, maxStates: nat, expired: nat -> bool)
    returns (verdict: Verdict, states: nat)
    ensures verdict == Passed ==> Admissible(h) && Linearizable(h, initial)
    ensures verdict.Failed? ==> Admissible(h) && !Linearizable(h, initial)
    ensures verdict.Failed? ==> !Searchable(h, KeyGroup(h, verdict.key), Lookup(initial, verdict.key))
    ensures verdict == Invalid ==> !Admissible(h)
    ensures verdict == Inconclusive && Admissible(h) ==>
              (exists k :: |KeyGroup(h, k)| > KEY_LIMIT) || states > maxStates || expired(states)
  {
    states := 0;
    if |h| == 0 {
      return Inconclusive, states;
    }
    var refused := Screen(h);
    if refused.Some? {
      return refused.value, states;
    }
    var ordered := CheckSessions(h);
    if !ordered {
      return Invalid, states;
    }
    forall i: nat | i < |h| ensures Usable(h, i) {
      assert WellFormed(h[i]);
    }
    verdict, states := CheckKeys(h, initial, maxStates, expired);
  }

  /** The search of every key in turn, with one visit counter. */
  method CheckKeys(h: seq<Event>, initial: map<string, string>, maxStates: nat, expired: nat -> bool)
    returns (verdict: Verdict, states: nat)
    requires forall i: nat | i < |h| :: Usable(h, i)
    ensures verdict == Passed ==> Linearizable(h, initial)
    ensures verdict.Failed? ==> !Linearizable(h, initial)
    ensures verdict.Failed? ==> !Searchable(h, KeyGroup(h, verdict.key), Lookup(initial, verdict.key))
    ensures verdict != Invalid
    ensures verdict == Inconclusive ==>
              (exists k :: |KeyGroup(h, k)| > KEY_LIMIT) || states > maxStates || expired(states)
  {
    states := 0;
    var labels := seq(|h|, i requires 0 <= i < |h| => h[i].command.key);
    var keys, groups := GroupBy(labels);
    forall i: nat | i < |h| ensures h[i].command.key in keys {
      assert labels[i] in groups;
    }
    for n := 0 to |keys|
      invariant forall k <- keys[..n] :: Searchable(h, KeyGroup(h, k), Lookup(initial, k))
    {
      var key := keys[n];
      assert key in keys;
      GroupIsKeyGroup(h, labels, key);
      var found;
      found, states := CheckKey(h, key, groups[key], Lookup(initial, key), maxStates, expired, states);
      if found.None? {
        return Inconclusive, states;
      }
      if !found.value {
        Locality(h, keys, initial);
        return Failed(key), states;
      }
      assert keys[..n + 1] == keys[..n] + [key];
    }
    assert keys[..|keys|] == keys;
    Locality(h, keys, initial);
    return Passed, states;
  }

  lemma GroupIsKeyGroup(h: seq<Event>, labels: seq<string>, key: string)
    requires |labels| == |h| && forall i | 0 <= i < |h| :: labels[i] == h[i].command.key
    ensures Enumerates(Where(labels, |h|, key), KeyGroup(h, key))
  {
    WhereMembers(labels, |h|, key);
  }

  method CheckKey(
    h: seq<Event>, key: string, group: seq<nat>, initial: Option<string>,
    maxStates: nat, expired: nat -> bool, visited: nat)
    returns (found: Option<bool>, states: nat)
    requires Enumerates(group, KeyGroup(h, key))
    requires forall i: nat | i < |h| :: Usable(h, i)
    ensures found.Some? ==> (found.value <==> Searchable(h, KeyGroup(h, key), initial))
    ensures found.None? ==> |KeyGroup(h, key)| > KEY_LIMIT || states > maxStates || expired(states)
    ensures visited <= states
  {
    if |group| > KEY_LIMIT {
      DistinctSize(group, KeyGroup(h, key));
      return None, visited;
    }
    forall i | 0 <= i < |group| ensures Usable(h, group[i]) {
      assert group[i] in group;
    }
    var search := new Search(h, group, maxStates, expired, visited);
    assert search.All() - {} == KeyGroup(h, key);
    found := search.Visit({}, initial);
    states := search.visited;
  }

  // ---------- Sessions and the deduplicating model ----------

  ghost function Commands(h: seq<Event>, order: seq<nat>): (log: seq<Command>)
    requires forall i | 0 <= i < |order| :: order[i] < |h|
    ensures |log| == |order| && forall i | 0 <= i < |log| :: log[i] == h[order[i]].command
  {
    seq(|order|, i requires 0 <= i < |order| => h[order[i]].command)
  }

  /** The deduplicating model, from fresh sessions, answers exactly what was observed. */
  ghost predicate ReplaysThroughSessions(h: seq<Event>, order: seq<nat>, kv: map<string, string>) {
    && (forall i | 0 <= i < |order| :: order[i] < |h|)
    && forall i: nat | i < |order| ::
         h[order[i]].reply.result == Some(Answer(State(kv, map[]), Commands(h, order), i))
  }

  /** Operations of one client never touch: the strict form of the session order. */
  ghost predicate Separated(h: seq<Event>) {
    forall a: nat, b: nat | SameClient(h, a, b) && Earlier(h, a, b) :: Before(h, a, b)
  }

  lemma {:induction false} PlainRunFromFront(kv: map<string, string>, c: Command, log: seq<Command>)
    requires Supported(c) && forall d <- log :: Supported(d)
    ensures PlainRun(kv, [c] + log) == PlainRun(Plain(kv, c).0, log)
  {
    var whole := [c] + log;
    if log == [] {
      assert whole[..0] == [];
    } else {
      var n := |log| - 1;
      PlainRunFromFront(kv, c, log[..n]);
      assert whole[..n + 1] == [c] + log[..n];
    }
  }

  /** An explaining order gives each reply as the plain answer at that point. */
  lemma {:induction false} ExplainsPointwise(h: seq<Event>, order: seq<nat>, kv: map<string, string>, i: nat)
    requires Within(h, order) && Explains(h, order, kv) && i < |order|
    ensures var log := Commands(h, order);
            h[order[i]].reply.result == Some(Plain(PlainRun(kv, log[..i]), log[i]).1)
  {
    var log := Commands(h, order);
    if i > 0 {
      var rest := order[1..];
      ExplainsPointwise(h, rest, Plain(kv, log[0]).0, i - 1);
      assert log[..i] == [log[0]] + Commands(h, rest)[..i - 1];
      PlainRunFromFront(kv, log[0], Commands(h, rest)[..i - 1]);
    }
  }

  lemma FreshInPrefix(log: seq<Command>, n: nat, i: nat)
    requires i < n <= |log| && Fresh(log, i)
    ensures Fresh(log[..n], i)
  {
  }

  lemma {:induction false} ErasesNothing(log: seq<Command>)
    requires forall i | 0 <= i < |log| :: Fresh(log, i)
    ensures Erased(log) == log
  {
    if log != [] {
      var n := |log| - 1;
      forall i | 0 <= i < n ensures Fresh(log[..n], i) {
        FreshInPrefix(log, n, i);
      }
      ErasesNothing(log[..n]);
      assert Fresh(log, n) && log == log[..n] + [log[n]];
    }
  }

  /** A linearization keeps every client's own order when its operations are separated. */
  lemma SeparationMakesFresh(h: seq<Event>, order: seq<nat>, i: nat)
    requires forall j | 0 <= j < |order| :: order[j] < |h|
    requires Respects(h, order) && forall a, b | 0 <= a < b < |order| :: order[a] != order[b]
    requires Sequential(h) && Separated(h)
    requires i < |order|
    ensures Fresh(Commands(h, order), i)
  {
    forall j | 0 <= j < i && h[order[j]].command.client == h[order[i]].command.client
      ensures h[order[j]].command.sequence < h[order[i]].command.sequence
    {
      assert !Before(h, order[i], order[j]);
      assert SameClient(h, order[i], order[j]) && SameClient(h, order[j], order[i]);
      assert Earlier(h, order[j], order[i]);
    }
  }

  /** The order keeps the operations of every client in session order. */
  ghost predicate KeepsSessions(h: seq<Event>, order: seq<nat>)
    requires forall i | 0 <= i < |order| :: order[i] < |h|
  {
    forall i | 0 <= i < |order| :: Fresh(Commands(h, order), i)
  }

  lemma LinearizesWithin(h: seq<Event>, order: seq<nat>, kv: map<string, string>)
    requires Screened(h) && Linearizes(h, order, kv)
    ensures Within(h, order) && forall i | 0 <= i < |order| :: order[i] < |h|
  {
    forall i | 0 <= i < |order| ensures Usable(h, order[i]) {
      assert order[i] in order;
      assert WellFormed(h[order[i]]);
    }
  }

  /** Out of session order, the deduplicating model answers with an error. */
  lemma LateIsRefused(h: seq<Event>, order: seq<nat>, kv: map<string, string>, i: nat)
    requires Screened(h) && Within(h, order) && i < |order|
    requires forall a, b | 0 <= a < b < |order| :: order[a] != order[b]
    requires !Fresh(Commands(h, order), i)
    ensures Answer(State(kv, map[]), Commands(h, order), i) == Failure("stale_sequence")
  {
    var log := Commands(h, order);
    FreshMeansAbsentOrNewer(kv, log, i);
    SessionsFollowLog(kv, log[..i]);
    var c := log[i];
    var known := Run(State(kv, map[]), log[..i]).sessions[c.client];
    var j :| 0 <= j < i && log[j] == known.command;
    assert Identity(h[order[j]]) != Identity(h[order[i]]);
  }

  lemma KeptSessionsReplay(h: seq<Event>, order: seq<nat>, kv: map<string, string>, i: nat)
    requires Screened(h) && Linearizes(h, order, kv) && i < |order|
    requires Within(h, order) && KeepsSessions(h, order)
    ensures h[order[i]].reply.result == Some(Answer(State(kv, map[]), Commands(h, order), i))
  {
    var log := Commands(h, order);
    ExplainsPointwise(h, order, kv, i);
    ErasureKeepsAnswers(kv, log, i);
    forall j | 0 <= j < i ensures Fresh(log[..i], j) {
      FreshInPrefix(log, i, j);
    }
    ErasesNothing(log[..i]);
  }

  /**
  A linearization of a screened history replays through the session-aware model with exactly
  the observed outcomes if and only if it keeps the operations of every client in order.
  */
  lemma ReplaysExactly(h: seq<Event>, order: seq<nat>, kv: map<string, string>)
    requires Screened(h) && Linearizes(h, order, kv)
    ensures (forall i | 0 <= i < |order| :: order[i] < |h|) &&
            (ReplaysThroughSessions(h, order, kv) <==> KeepsSessions(h, order))
  {
    LinearizesWithin(h, order, kv);
    var log := Commands(h, order);
    if KeepsSessions(h, order) {
      forall i: nat | i < |order| ensures h[order[i]].reply.result == Some(Answer(State(kv, map[]), log, i)) {
        KeptSessionsReplay(h, order, kv, i);
      }
    } else {
      var i :| 0 <= i < |order| && !Fresh(log, i);
      LateIsRefused(h, order, kv, i);
      assert Completed(h[order[i]]);
    }
  }

  /** When the operations of one client are strictly separated, every linearization replays. */
  lemma SessionsHideNothing(h: seq<Event>, order: seq<nat>, kv: map<string, string>)
    requires Admissible(h) && Separated(h) && Linearizes(h, order, kv)
    ensures ReplaysThroughSessions(h, order, kv)
  {
    LinearizesWithin(h, order, kv);
    forall i | 0 <= i < |order| ensures Fresh(Commands(h, order), i) {
      SeparationMakesFresh(h, order, i);
    }
    ReplaysExactly(h, order, kv);
  }

  /** One client writes, and its next operation starts exactly when the write ends. */
  function TouchingHistory(): seq<Event> {
    var write := Command("c", 1, Put, "k", "a", None);
    var read := Command("c", 2, Get, "k", "", None);
    [Event(write, 0, 1, Reply("ok", Some(Outcome(Some("a"), None, None)))),
     Event(read, 1, 2, Reply("ok", Some(Outcome(None, None, None))))]
  }

  lemma TouchingIsAccepted()
    ensures var h := TouchingHistory();
            Admissible(h) && Linearizable(h, map[]) && !Separated(h)
  {
    var h := TouchingHistory();
    var good := [1, 0];
    assert good[1..] == [0] && good[1..][1..] == [];
    assert Explains(h, good[1..], map[]);
    assert Linearizes(h, good, map[]);
    assert SameClient(h, 0, 1) && Earlier(h, 0, 1) && !Before(h, 0, 1);
  }

  /** The second operation to replay is refused as stale, or reads the write. */
  lemma TouchingAnswers(order: seq<nat>)
    requires order == [0, 1] || order == [1, 0]
    ensures var h := TouchingHistory();
            h[order[1]].reply.result != Some(Answer(State(map[], map[]), Commands(h, order), 1))
  {
    var h := TouchingHistory();
    var log := Commands(h, order);
    var s0 := State(map[], map[]);
    assert log[..1][..0] == [];
    assert Run(s0, log[..1]) == Step(s0, log[0]).0;
  }

  /**
  Strict separation is needed: the checker's conditions accept a client that reads the old
  value right after its own write, because touching intervals count as concurrent, yet no
  order of the two operations replays through the session-aware model.
  */
  lemma TouchingSessionsAreNotReplayable()
    ensures var h := TouchingHistory();
            Admissible(h) && Linearizable(h, map[]) && !Separated(h) &&
            forall order | Enumerates(order, Positions(|h|)) :: !ReplaysThroughSessions(h, order, map[])
  {
    TouchingIsAccepted();
    forall order | Enumerates(order, Positions(2))
      ensures !ReplaysThroughSessions(TouchingHistory(), order, map[])
    {
      TwoPositions(order);
      TouchingAnswers(order);
    }
  }

  lemma TwoPositions(order: seq<nat>)
    requires Enumerates(order, Positions(2))
    ensures order == [0, 1] || order == [1, 0]
  {
    DistinctSize(order, Positions(2));
    assert Positions(2) == {0, 1};
    assert order[0] in order && order[1] in order;
  }
}
