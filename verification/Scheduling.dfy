/**
The single-owner actor: how inputs move from the bounded channel and the deferred queue to
the consensus engine. Client requests and peer messages are batched; with completion
priority, a batch of safe peer messages may overtake ready execute requests.

Inputs carry their arrival number. The channel holds every input not yet received, also
those that have not arrived yet: each receive that does not wait may find nothing, so all
timings are covered. The engine's batching decisions are arbitrary functions of the batch.
*/
module Scheduling {
  import opened Kv

  datatype Input =
    | Client(arrival: nat, execute: bool)
    | Peer(arrival: nat, message: string)
    | Wake(arrival: nat)

  datatype Sort = Clients | Peers | Wakes

  function SortOf(i: Input): Sort {
    match i
    case Client(_, _) => Clients
    case Peer(_, _) => Peers
    case Wake(_) => Wakes
  }

  /** What the engine allows: growing a batch, running it first, sharing a step with proposals. */
  datatype Engine = Engine(
    admit: (seq<string>, string) -> bool,
    prioritizable: seq<string> -> bool,
    combinable: seq<string> -> bool)

  /** What reaches the engine, as arrival numbers. */
  datatype Action = PeerBatch(peers: seq<nat>) | Proposals(commands: seq<nat>)

  // ---------- Streams ----------

  ghost function Of(s: seq<Input>, k: Sort): seq<nat> {
    if s == [] then []
    else if SortOf(s[0]) == k then [s[0].arrival] + Of(s[1..], k)
    else Of(s[1..], k)
  }

  lemma {:induction false} OfSplits(a: seq<Input>, b: seq<Input>, k: Sort)
    ensures Of(a + b, k) == Of(a, k) + Of(b, k)
  {
    if a == [] {
      assert a + b == b;
    } else {
      OfSplits(a[1..], b, k);
      assert (a + b)[1..] == a[1..] + b;
    }
  }

  ghost predicate AllOf(s: seq<Input>, k: Sort) {
    forall i | 0 <= i < |s| :: SortOf(s[i]) == k
  }

  function Arrivals(s: seq<Input>): (r: seq<nat>)
    ensures |r| == |s| && forall i | 0 <= i < |s| :: r[i] == s[i].arrival
  {
    seq(|s|, i requires 0 <= i < |s| => s[i].arrival)
  }

  function Messages(s: seq<Input>): (r: seq<string>)
    requires forall i | 0 <= i < |s| :: s[i].Peer?
  {
    seq(|s|, i requires 0 <= i < |s| => s[i].message)
  }

  lemma {:induction false} OfUniform(s: seq<Input>, k: Sort)
    requires AllOf(s, k)
    ensures forall j :: Of(s, j) == if j == k then Arrivals(s) else []
  {
    if s != [] {
      OfUniform(s[1..], k);
      assert Arrivals(s) == [s[0].arrival] + Arrivals(s[1..]);
    }
  }

  ghost predicate Sorted(s: seq<Input>) {
    forall i, j | 0 <= i < j < |s| :: s[i].arrival < s[j].arrival
  }

  ghost predicate Ascending(s: seq<nat>) {
    forall i, j | 0 <= i < j < |s| :: s[i] < s[j]
  }

  // ---------- Traces ----------

  ghost function Delivered(trace: seq<Action>): seq<nat> {
    if trace == [] then []
    else
      var n := |trace| - 1;
      Delivered(trace[..n]) + (if trace[n].PeerBatch? then trace[n].peers else [])
  }

  ghost function Proposed(trace: seq<Action>): seq<nat> {
    if trace == [] then []
    else
      var n := |trace| - 1;
      Proposed(trace[..n]) + (if trace[n].Proposals? then trace[n].commands else [])
  }

  /** The batch holds a message that arrived after request `x`. */
  ghost predicate Jumps(a: Action, x: nat) {
    a.PeerBatch? && exists p <- a.peers :: x < p
  }

  /** How many peer batches of the trace have overtaken request `x`. */
  ghost function Overtakes(trace: seq<Action>, x: nat): nat {
    if trace == [] then 0
    else
      var n := |trace| - 1;
      Overtakes(trace[..n], x) + (if Jumps(trace[n], x) then 1 else 0)
  }

  lemma OneMore(trace: seq<Action>, a: Action)
    ensures Delivered(trace + [a]) == Delivered(trace) + (if a.PeerBatch? then a.peers else [])
    ensures Proposed(trace + [a]) == Proposed(trace) + (if a.Proposals? then a.commands else [])
    ensures forall x :: Overtakes(trace + [a], x) == Overtakes(trace, x) + if Jumps(a, x) then 1 else 0
  {
    assert (trace + [a])[..|trace|] == trace;
  }

  /** A batch of messages is within the cap; a request is proposed after at most two batches overtook it. */
  ghost predicate BoundedAt(trace: seq<Action>, k: nat, cap: nat)
    requires k < |trace|
  {
    && (trace[k].PeerBatch? ==> 1 <= |trace[k].peers| <= cap)
    && (trace[k].Proposals? ==> forall x <- trace[k].commands :: Overtakes(trace[..k], x) <= 2)
  }

  ghost predicate Bounded(trace: seq<Action>, cap: nat) {
    forall k: nat {:trigger BoundedAt(trace, k, cap)} | k < |trace| :: BoundedAt(trace, k, cap)
  }

  lemma BoundedOneMore(trace: seq<Action>, a: Action, cap: nat)
    requires Bounded(trace, cap)
    requires a.PeerBatch? ==> 1 <= |a.peers| <= cap
    requires a.Proposals? ==> forall x <- a.commands :: Overtakes(trace, x) <= 2
    ensures Bounded(trace + [a], cap)
  {
    var t := trace + [a];
    forall k: nat | k < |t| ensures BoundedAt(t, k, cap) {
      if k < |trace| {
        assert BoundedAt(trace, k, cap) && t[..k] == trace[..k];
      } else {
        assert t[..k] == trace;
      }
    }
  }

  /** How many single messages overtook request `x`. */
  ghost function OvertakingMessages(trace: seq<Action>, x: nat): nat {
    if trace == [] then 0
    else
      var n := |trace| - 1;
      OvertakingMessages(trace[..n], x) + (if Jumps(trace[n], x) then |trace[n].peers| else 0)
  }

  lemma {:induction false} MessagesPerBatch(trace: seq<Action>, x: nat, cap: nat)
    requires forall k: nat | k < |trace| :: trace[k].PeerBatch? ==> |trace[k].peers| <= cap
    ensures OvertakingMessages(trace, x) <= Overtakes(trace, x) * cap
  {
    if trace != [] {
      var n := |trace| - 1;
      MessagesPerBatch(trace[..n], x, cap);
      OneMoreBatch(Overtakes(trace[..n], x), cap);
    }
  }

  lemma OneMoreBatch(n: nat, cap: nat)
    ensures (n + 1) * cap == n * cap + cap
  {
  }

  /** A proposed request was overtaken by at most twice a peer batch of messages. */
  lemma BoundedOvertaking(trace: seq<Action>, cap: nat, k: nat, x: nat)
    requires Bounded(trace, cap) && k < |trace| && trace[k].Proposals? && x in trace[k].commands
    ensures Overtakes(trace[..k], x) <= 2
    ensures OvertakingMessages(trace[..k], x) <= 2 * cap
  {
    assert BoundedAt(trace, k, cap);
    forall j: nat | j < k && trace[j].PeerBatch? ensures |trace[..k][j].peers| <= cap {
      assert BoundedAt(trace, j, cap);
    }
    MessagesPerBatch(trace[..k], x, cap);
    assert Overtakes(trace[..k], x) * cap <= 2 * cap;
  }

  // ---------- The state of the owner, and what every turn keeps ----------

  /**
  The owner's queues with the history of a run: all inputs in arrival order, the clients
  taken, the wakes consumed, what reached the engine, and how many requests at the head of
  the queue have already been overtaken.
  */
  datatype View = View(
    batchSize: nat, cap: nat, total: seq<Input>,
    deferred: seq<Input>, channel: seq<Input>,
    handled: seq<nat>, woken: seq<nat>, trace: seq<Action>, mark: nat)
  {
    ghost function Stream(): seq<Input> {
      deferred + channel
    }
  }

  /** Nothing is lost or duplicated, and clients, peers and wakes keep arrival order. */
  ghost predicate Conserved(v: View) {
    && v.handled + Of(v.Stream(), Clients) == Of(v.total, Clients)
    && Delivered(v.trace) + Of(v.Stream(), Peers) == Of(v.total, Peers)
    && v.woken + Of(v.Stream(), Wakes) == Of(v.total, Wakes)
  }

  /** Requests already overtaken once stand first in the queue; no other was overtaken. */
  ghost predicate Marked(v: View) {
    && v.mark <= |v.deferred| && v.mark <= v.batchSize
    && (forall i | 0 <= i < v.mark :: v.deferred[i].Client? && v.deferred[i].execute)
    && OvertakenUpTo(v.trace, v.Stream(), v.mark)
  }

  ghost predicate OvertakenUpTo(trace: seq<Action>, s: seq<Input>, mark: nat) {
    forall i | 0 <= i < |s| :: Overtakes(trace, s[i].arrival) <= if i < mark then 1 else 0
  }

  ghost predicate Ahead(xs: seq<nat>, s: seq<Input>) {
    forall i, j | 0 <= i < |xs| && 0 <= j < |s| :: xs[i] < s[j].arrival
  }

  ghost predicate InOrder(v: View) {
    && Sorted(v.Stream())
    && Ascending(v.handled) && Ahead(v.handled, v.Stream())
    && Ascending(Proposed(v.trace))
    && (forall x <- Proposed(v.trace) :: x in v.handled)
  }

  ghost predicate Good(v: View) {
    && v.batchSize >= 1 && v.cap >= 1 && |v.deferred| <= v.batchSize + 1
    && Conserved(v) && Marked(v) && InOrder(v) && Bounded(v.trace, v.cap)
  }

  /** A request that was taken, behind all proposed ones, and overtaken at most `bound` times so far. */
  ghost predicate Awaits(handled: seq<nat>, trace: seq<Action>, x: nat, bound: nat) {
    && x in handled && Overtakes(trace, x) <= bound
    && forall y <- Proposed(trace) :: y < x
  }

  /** Requests collected for the next proposal. */
  ghost predicate InHand(v: View, commands: seq<nat>, bound: nat) {
    && Ascending(commands)
    && forall x {:trigger Awaits(v.handled, v.trace, x, bound)} | x in commands :: Awaits(v.handled, v.trace, x, bound)
  }

  /** The same queues with inputs moved between the deferred queue and the channel. */
  ghost predicate Requeued(v: View, w: View) {
    w == v.(deferred := w.deferred, channel := w.channel) && w.Stream() == v.Stream()
  }

  lemma RequeueKeeps(v: View, w: View)
    requires Good(v) && Requeued(v, w) && v.mark == 0 && |w.deferred| <= v.batchSize + 1
    ensures Good(w)
  {
  }

  lemma MovesOver(a: seq<Input>, x: Input, b: seq<Input>)
    ensures a + ([x] + b) == a + [x] + b
  {
  }

  /** A client at the head of the stream is taken. */
  ghost predicate TakesClient(v: View, w: View) {
    && |v.Stream()| > 0 && v.Stream()[0].Client?
    && w == v.(deferred := w.deferred, channel := w.channel,
               handled := v.handled + [v.Stream()[0].arrival],
               mark := if v.mark == 0 then 0 else v.mark - 1)
    && w.Stream() == v.Stream()[1..]
    && (v.deferred != [] ==> w.deferred == v.deferred[1..])
    && (v.deferred == [] ==> w.deferred == [])
  }

  lemma HeadSplits(v: View)
    requires |v.Stream()| > 0
    ensures var s := v.Stream();
            forall k :: Of(s, k) == (if SortOf(s[0]) == k then [s[0].arrival] else []) + Of(s[1..], k)
  {
  }

  lemma TakeClientKeeps(v: View, w: View)
    requires Good(v) && TakesClient(v, w)
    ensures Good(w)
  {
    var s := v.Stream();
    HeadSplits(v);
    assert Conserved(w);
    assert forall i | 0 <= i < |w.Stream()| :: w.Stream()[i] == s[i + 1];
    assert Marked(w);
    assert InOrder(w);
  }

  /** The client just taken joins the requests in hand. */
  lemma TakeClientInHand(v: View, w: View, commands: seq<nat>)
    requires Good(v) && TakesClient(v, w) && InHand(v, commands, 1)
    ensures InHand(w, commands, 1)
    ensures InHand(w, commands + [v.Stream()[0].arrival], 1)
  {
    var x := v.Stream()[0].arrival;
    assert Overtakes(v.trace, x) <= 1;
    assert forall y <- v.handled :: y < x;
    assert Awaits(w.handled, w.trace, x, 1);
    var more := commands + [x];
    forall z <- more ensures Awaits(w.handled, w.trace, z, 1) {
      if z != x {
        assert z in commands && Awaits(v.handled, v.trace, z, 1);
      }
    }
    forall i, j | 0 <= i < j < |more| ensures more[i] < more[j] {
      assert more[i] in commands && Awaits(v.handled, v.trace, more[i], 1);
    }
  }

  /** A batch of peers leaves the stream for the engine, past the requests in `front`. */
  ghost predicate Delivers(v: View, w: View, front: seq<Input>, peers: seq<Input>, rest: seq<Input>) {
    && v.mark == 0 && 1 <= |peers| <= v.cap && |front| <= v.batchSize
    && v.Stream() == front + peers + rest && w.Stream() == front + rest
    && (forall i | 0 <= i < |front| :: front[i].Client? && front[i].execute)
    && AllOf(peers, Peers)
    && |front| <= |w.deferred| <= v.batchSize + 1
    && w == v.(deferred := w.deferred, channel := w.channel, mark := |front|,
               trace := v.trace + [PeerBatch(Arrivals(peers))])
  }

  lemma MiddleLeaves(a: seq<Input>, b: seq<Input>, c: seq<Input>, j: Sort)
    requires AllOf(b, Peers) && j != Peers
    ensures Of(a + b + c, j) == Of(a + c, j)
  {
    OfUniform(b, Peers);
    OfSplits(a + b, c, j);
    OfSplits(a, b, j);
    OfSplits(a, c, j);
  }

  lemma MiddlePeers(a: seq<Input>, b: seq<Input>, c: seq<Input>)
    requires AllOf(a, Clients) && AllOf(b, Peers)
    ensures Of(a + b + c, Peers) == Arrivals(b) + Of(a + c, Peers)
  {
    FrontOf(a, Clients, b, Peers);
    FrontOf(a, Clients, c, Peers);
    OfUniform(b, Peers);
    OfSplits(a + b, c, Peers);
  }

  lemma FrontOf(a: seq<Input>, k: Sort, c: seq<Input>, j: Sort)
    requires AllOf(a, k) && j != k
    ensures Of(a + c, j) == Of(c, j)
  {
    OfUniform(a, k);
    OfSplits(a, c, j);
  }

  lemma PeersConserved(delivered: seq<nat>, a: seq<Input>, b: seq<Input>, c: seq<Input>)
    requires AllOf(a, Clients) && AllOf(b, Peers)
    ensures delivered + Of(a + b + c, Peers) == delivered + Arrivals(b) + Of(a + c, Peers)
  {
    MiddlePeers(a, b, c);
  }

  lemma DeliverConserves(v: View, w: View, front: seq<Input>, peers: seq<Input>, rest: seq<Input>)
    requires Conserved(v) && Delivers(v, w, front, peers, rest)
    ensures Conserved(w)
  {
    MiddleLeaves(front, peers, rest, Clients);
    MiddleLeaves(front, peers, rest, Wakes);
    PeersConserved(Delivered(v.trace), front, peers, rest);
    OneMore(v.trace, PeerBatch(Arrivals(peers)));
  }

  /** In a sorted stream, what is delivered arrived before everything behind it. */
  lemma DeliverMarks(v: View, w: View, front: seq<Input>, peers: seq<Input>, rest: seq<Input>)
    requires OvertakenUpTo(v.trace, v.Stream(), 0) && Sorted(v.Stream()) && Delivers(v, w, front, peers, rest)
    ensures Marked(w)
  {
    var k, n, batch := |front|, |peers|, PeerBatch(Arrivals(peers));
    var s, t := front + peers + rest, front + rest;
    OneMore(v.trace, batch);
    forall i | 0 <= i < k ensures w.deferred[i] == front[i] {
      assert w.Stream()[i] == t[i];
    }
    forall i | 0 <= i < |t| ensures Overtakes(w.trace, t[i].arrival) <= if i < k then 1 else 0 {
      if i < k {
        assert t[i] == s[i];
      } else {
        assert t[i] == s[i + n];
        forall p <- batch.peers ensures p < s[i + n].arrival {
          var j :| 0 <= j < n && batch.peers[j] == p;
          assert s[k + j] == peers[j];
        }
      }
    }
  }

  /** What stands behind a removed middle was behind it before, in the same order. */
  lemma WithoutMiddle(a: seq<Input>, b: seq<Input>, c: seq<Input>, handled: seq<nat>)
    requires Sorted(a + b + c) && Ahead(handled, a + b + c)
    ensures Sorted(a + c) && Ahead(handled, a + c)
  {
    var s, t := a + b + c, a + c;
    forall i | 0 <= i < |t| ensures t[i] == s[if i < |a| then i else i + |b|] {
    }
  }

  lemma DeliverInOrder(v: View, w: View, front: seq<Input>, peers: seq<Input>, rest: seq<Input>)
    requires InOrder(v) && Delivers(v, w, front, peers, rest)
    ensures InOrder(w)
  {
    OneMore(v.trace, PeerBatch(Arrivals(peers)));
    WithoutMiddle(front, peers, rest, v.handled);
  }

  lemma DeliverKeeps(v: View, w: View, front: seq<Input>, peers: seq<Input>, rest: seq<Input>, commands: seq<nat>)
    requires Good(v) && Delivers(v, w, front, peers, rest) && InHand(v, commands, 1)
    ensures Good(w) && InHand(w, commands, 2)
  {
    var batch := PeerBatch(Arrivals(peers));
    DeliverConserves(v, w, front, peers, rest);
    DeliverMarks(v, w, front, peers, rest);
    DeliverInOrder(v, w, front, peers, rest);
    OneMore(v.trace, batch);
    BoundedOneMore(v.trace, batch, v.cap);
    forall x <- commands ensures Awaits(w.handled, w.trace, x, 2) {
      assert Awaits(v.handled, v.trace, x, 1);
    }
  }

  lemma AscendingJoins(p: seq<nat>, c: seq<nat>)
    requires Ascending(p) && Ascending(c) && forall x <- c, y <- p :: y < x
    ensures Ascending(p + c)
  {
    var s := p + c;
    forall i, j | 0 <= i < j < |s| ensures s[i] < s[j] {
      if i < |p| <= j {
        assert p[i] in p && c[j - |p|] in c;
      }
    }
  }

  lemma ProposeInOrder(v: View, commands: seq<nat>)
    requires InOrder(v) && InHand(v, commands, 2)
    ensures InOrder(v.(trace := v.trace + [Proposals(commands)]))
  {
    OneMore(v.trace, Proposals(commands));
    assert forall x <- commands :: Awaits(v.handled, v.trace, x, 2);
    AscendingJoins(Proposed(v.trace), commands);
  }

  lemma ProposeKeeps(v: View, commands: seq<nat>)
    requires Good(v) && InHand(v, commands, 2)
    ensures Good(v.(trace := v.trace + [Proposals(commands)]))
  {
    OneMore(v.trace, Proposals(commands));
    assert forall x <- commands :: Awaits(v.handled, v.trace, x, 2);
    BoundedOneMore(v.trace, Proposals(commands), v.cap);
    ProposeInOrder(v, commands);
  }

  lemma WakeKeeps(v: View, w: View)
    requires Good(v) && |v.Stream()| > 0 && v.Stream()[0].Wake? && v.mark == 0
    requires w == v.(deferred := w.deferred, channel := w.channel, woken := v.woken + [v.Stream()[0].arrival])
    requires w.Stream() == v.Stream()[1..] && |w.deferred| <= v.batchSize + 1
    ensures Good(w)
  {
    HeadSplits(v);
    assert Conserved(w);
    assert forall i | 0 <= i < |w.Stream()| :: w.Stream()[i] == v.Stream()[i + 1];
  }

  lemma StartIsGood(batchSize: nat, cap: nat, inputs: seq<Input>)
    requires batchSize >= 1 && cap >= 1 && Sorted(inputs)
    ensures Good(View(batchSize, cap, inputs, [], inputs, [], [], [], 0))
  {
    assert [] + inputs == inputs;
    forall k ensures [] + Of(inputs, k) == Of(inputs, k) {
    }
  }

  lemma InHandLoosens(v: View, commands: seq<nat>, bound: nat)
    requires InHand(v, commands, bound) && bound <= 2
    ensures InHand(v, commands, 2)
  {
    assert forall x <- commands :: Awaits(v.handled, v.trace, x, bound);
  }

  // ---------- Admitted requests ----------

  /** Whether the owner will admit a request, by its arrival. */
  type Admission = nat -> bool

  ghost function ChosenOne(i: Input, admits: Admission): seq<nat> {
    if i.Client? && i.execute && admits(i.arrival) then [i.arrival] else []
  }

  /** The execute requests of a stream that will be admitted, in order. */
  ghost function Chosen(s: seq<Input>, admits: Admission): seq<nat> {
    if s == [] then [] else ChosenOne(s[0], admits) + Chosen(s[1..], admits)
  }

  lemma Associates(a: seq<nat>, b: seq<nat>, c: seq<nat>)
    ensures a + (b + c) == a + b + c
  {
  }

  lemma {:induction false} ChosenSplits(a: seq<Input>, b: seq<Input>, admits: Admission)
    ensures Chosen(a + b, admits) == Chosen(a, admits) + Chosen(b, admits)
  {
    if a == [] {
      assert a + b == b;
    } else {
      ChosenSplits(a[1..], b, admits);
      assert (a + b)[1..] == a[1..] + b && (a + b)[0] == a[0];
      Associates(ChosenOne(a[0], admits), Chosen(a[1..], admits), Chosen(b, admits));
    }
  }

  lemma {:induction false} NoneChosen(s: seq<Input>, admits: Admission)
    requires AllOf(s, Peers)
    ensures Chosen(s, admits) == []
  {
    if s != [] {
      NoneChosen(s[1..], admits);
    }
  }

  /** What was proposed, what is in hand and what still waits make up all admitted requests, in order. */
  ghost predicate Kept(v: View, admits: Admission, commands: seq<nat>) {
    Proposed(v.trace) + commands + Chosen(v.Stream(), admits) == Chosen(v.total, admits)
  }

  lemma ThreeParts(a: seq<nat>, b: seq<nat>, c: seq<nat>, d: seq<nat>)
    ensures a + b + (c + d) == a + (b + c) + d
  {
  }

  lemma TakeClientChooses(v: View, w: View, admits: Admission, start: seq<nat>)
    requires TakesClient(v, w) && Kept(v, admits, start)
    ensures Kept(w, admits, start + ChosenOne(v.Stream()[0], admits))
  {
    ThreeParts(Proposed(v.trace), start, ChosenOne(v.Stream()[0], admits), Chosen(w.Stream(), admits));
  }

  lemma ChosenWithout(a: seq<Input>, b: seq<Input>, c: seq<Input>, admits: Admission)
    requires AllOf(b, Peers)
    ensures Chosen(a + b + c, admits) == Chosen(a + c, admits)
  {
    NoneChosen(b, admits);
    ChosenSplits(a + b, c, admits);
    ChosenSplits(a, b, admits);
    ChosenSplits(a, c, admits);
  }

  lemma DeliverChooses(
      v: View, w: View, front: seq<Input>, peers: seq<Input>, rest: seq<Input>, admits: Admission, commands: seq<nat>)
    requires Delivers(v, w, front, peers, rest) && Kept(v, admits, commands)
    ensures Kept(w, admits, commands)
  {
    OneMore(v.trace, PeerBatch(Arrivals(peers)));
    ChosenWithout(front, peers, rest, admits);
  }

  lemma ProposeChooses(v: View, admits: Admission, commands: seq<nat>)
    requires Kept(v, admits, commands)
    ensures Kept(v.(trace := v.trace + [Proposals(commands)]), admits, [])
  {
    OneMore(v.trace, Proposals(commands));
    var p := Proposed(v.trace) + commands;
    assert p + [] == p;
  }

  lemma WakeChooses(v: View, w: View, admits: Admission)
    requires Kept(v, admits, []) && |v.Stream()| > 0 && v.Stream()[0].Wake?
    requires w.Stream() == v.Stream()[1..] && w.trace == v.trace && w.total == v.total
    ensures Kept(w, admits, [])
  {
    assert [] + Chosen(w.Stream(), admits) == Chosen(w.Stream(), admits);
  }

  lemma StartIsKept(batchSize: nat, cap: nat, inputs: seq<Input>, admits: Admission)
    ensures Kept(View(batchSize, cap, inputs, [], inputs, [], [], [], 0), admits, [])
  {
    assert [] + inputs == inputs;
    assert [] + [] + Chosen(inputs, admits) == Chosen(inputs, admits);
  }

  // ---------- Readiness ----------

  /** A peer message that the lookahead reaches within the first inputs, past execute requests only. */
  ghost predicate PeerAt(s: seq<Input>, limit: nat, k: nat) {
    k < |s| && k <= limit && s[k].Peer? && forall i | 0 <= i < k :: s[i].Client? && s[i].execute
  }

  predicate EligibleBatch(e: Engine, prioritize: bool, peers: seq<Input>)
    requires forall i | 0 <= i < |peers| :: peers[i].Peer?
  {
    if prioritize then e.prioritizable(Messages(peers)) else e.combinable(Messages(peers))
  }

  /** A peer message that the lookahead reaches may run, so the lookahead must take it. */
  ghost predicate MustTake(e: Engine, prioritize: bool, s: seq<Input>, limit: nat) {
    exists k: nat :: PeerAt(s, limit, k) && EligibleBatch(e, prioritize, [s[k]])
  }

  /** The next input belongs into the batch. */
  predicate Joins(e: Engine, peers: seq<Input>, x: Input, prioritize: Option<bool>)
    requires forall i | 0 <= i < |peers| :: peers[i].Peer?
  {
    && x.Peer? && e.admit(Messages(peers), x.message)
    && (prioritize.Some? ==> EligibleBatch(e, prioritize.value, peers + [x]))
  }

  ghost predicate Passable(s: seq<Input>) {
    forall i | 0 <= i < |s| :: s[i].Client? && s[i].execute
  }

  /** When everything in the queue was passed over, no peer message stands in it. */
  lemma AllPassed(queue: seq<Input>, bypassed: seq<Input>, rest: seq<Input>, limit: nat)
    requires Passable(bypassed) && queue <= bypassed + rest && |queue| <= |bypassed|
    ensures forall k: nat :: !PeerAt(queue, limit, k)
  {
    assert forall i | 0 <= i < |queue| :: queue[i] == bypassed[i];
  }

  /** An input that can neither run nor be passed over keeps the lookahead from all behind it. */
  lemma Blocked(queue: seq<Input>, bypassed: seq<Input>, x: Input, rest: seq<Input>, limit: nat)
    requires Passable(bypassed) && queue <= bypassed + [x] + rest && |bypassed| <= limit
    requires !x.Peer? && (|bypassed| == limit || !(x.Client? && x.execute))
    ensures forall k: nat :: !PeerAt(queue, limit, k)
  {
    var s := bypassed + [x] + rest;
    assert forall i | 0 <= i < |queue| :: queue[i] == s[i];
    assert forall i | 0 <= i < |bypassed| :: s[i] == bypassed[i];
    assert s[|bypassed|] == x;
  }

  /** The first peer message in reach is the only one; if it may not run, nothing must be taken. */
  lemma NotEligible(
      e: Engine, prioritize: bool, queue: seq<Input>, bypassed: seq<Input>, first: Input, rest: seq<Input>, limit: nat)
    requires Passable(bypassed) && queue <= bypassed + [first] + rest && first.Peer?
    requires !EligibleBatch(e, prioritize, [first])
    ensures !MustTake(e, prioritize, queue, limit)
  {
    var s := bypassed + [first] + rest;
    assert forall i | 0 <= i < |queue| :: queue[i] == s[i];
    assert forall i | 0 <= i < |bypassed| :: s[i] == bypassed[i];
    assert s[|bypassed|] == first;
    forall k: nat | PeerAt(queue, limit, k) ensures !EligibleBatch(e, prioritize, [queue[k]]) {
      assert k == |bypassed|;
    }
  }

  // ---------- The owner ----------

  class Owner {
    const batchSize: nat
    const peerBatchSize: nat
    const maxSpeculative: nat
    const combine: bool
    const priority: bool
    const admits: Admission         // whether the owner admits an execute request when it handles it
    const ready: nat -> bool        // whether the n-th receive from the channel finds an input there
    var deferred: seq<Input>
    var channel: seq<Input>
    var receives: nat
    var bypassedInputs: nat
    var prioritizedBatches: nat
    var prioritizedEvents: nat

    ghost const total: seq<Input>
    ghost var handled: seq<nat>
    ghost var woken: seq<nat>
    ghost var trace: seq<Action>
    ghost var mark: nat

    ghost function Current(): View
      reads this
    {
      View(batchSize, peerBatchSize, total, deferred, channel, handled, woken, trace, mark)
    }

    ghost function Stream(): seq<Input>
      reads this`deferred, this`channel
    {
      deferred + channel
    }

    ghost predicate Valid()
      reads this
    {
      Good(Current()) && !(combine && priority)
    }

    /** How many execute requests a lookahead may pass over. */
    function Reach(prioritize: bool): nat {
      if prioritize then batchSize else 0
    }

    /** An input could be received now. */
    ghost predicate CanReceive()
      reads this
    {
      deferred != [] || (channel != [] && ready(receives))
    }

    /** The last receive found nothing, and nothing waits in the queue. */
    ghost predicate FoundNothing()
      reads this`deferred, this`channel, this`receives
    {
      deferred == [] && receives > 0 && (channel == [] || !ready(receives - 1))
    }

    /** No further client can be collected: nothing is ready, or something else stands first. */
    ghost predicate NoMoreClients(executeOnly: bool)
      reads this`deferred, this`channel, this`receives
    {
      FoundNothing() || (deferred != [] && !(deferred[0].Client? && (executeOnly ==> deferred[0].execute)))
    }

    constructor (
        batchSize: nat, peerBatchSize: nat, maxSpeculative: nat, combine: bool, priority: bool, admits: Admission,
        ready: nat -> bool, inputs: seq<Input>)
      requires batchSize >= 1 && peerBatchSize >= 1 && !(combine && priority) && Sorted(inputs)
      ensures Valid() && total == inputs && Stream() == inputs && trace == [] && handled == []
      ensures Kept(Current(), this.admits, []) && this.admits == admits && this.ready == ready
    {
      this.batchSize, this.peerBatchSize, this.maxSpeculative := batchSize, peerBatchSize, maxSpeculative;
      this.combine, this.priority, this.admits, this.ready := combine, priority, admits, ready;
      deferred, channel, total, receives := [], inputs, inputs, 0;
      bypassedInputs, prioritizedBatches, prioritizedEvents := 0, 0, 0;
      handled, woken, trace, mark := [], [], [], 0;
      new;
      assert Current() == View(batchSize, peerBatchSize, inputs, [], inputs, [], [], [], 0);
      StartIsGood(batchSize, peerBatchSize, inputs);
      StartIsKept(batchSize, peerBatchSize, inputs, admits);
    }

    /** The next ready input: from the queue, or from the channel if one is there. */
    method PopReady(fromChannel: bool) returns (input: Option<Input>)
      modifies this`deferred, this`channel, this`receives
      ensures input.Some? <==> old(deferred) != [] || (fromChannel && old(channel) != [] && ready(old(receives)))
      ensures input.None? ==> deferred == old(deferred) == [] && channel == old(channel)
      ensures input.None? && fromChannel ==> FoundNothing()
      ensures input.Some? ==> old(Stream()) == [input.value] + Stream()
      ensures input.Some? && old(deferred) != [] ==> deferred == old(deferred)[1..] && channel == old(channel)
      ensures input.Some? && old(deferred) == [] ==> fromChannel && deferred == []
    {
      if deferred != [] {
        input := Some(deferred[0]);
        deferred := deferred[1..];
        return;
      }
      input := None;
      if fromChannel {
        if channel != [] && ready(receives) {
          input := Some(channel[0]);
          channel := channel[1..];
        }
        receives := receives + 1;
      }
    }

    /**
    Peer messages that stand next in line, as many as the engine admits into one batch: it ends
    only at the cap, at an input that does not belong into it, or when nothing is ready.
    */
    method Grow(e: Engine, first: Input, prioritize: Option<bool>) returns (peers: seq<Input>)
      requires first.Peer? && peerBatchSize >= 1
      modifies this`deferred, this`channel, this`receives
      ensures 1 <= |peers| <= peerBatchSize && peers[0] == first && AllOf(peers, Peers)
      ensures [first] + old(Stream()) == peers + Stream()
      ensures |deferred| <= (if |old(deferred)| == 0 then 1 else |old(deferred)|)
      ensures prioritize.Some? && |peers| > 1 ==> EligibleBatch(e, prioritize.value, peers)
      ensures |peers| == peerBatchSize || !e.admit([], first.message) || FoundNothing() ||
              (deferred != [] && !Joins(e, peers, deferred[0], prioritize))
    {
      peers := [first];
      if !e.admit([], first.message) {
        return;
      }
      while |peers| < peerBatchSize
        invariant 1 <= |peers| <= peerBatchSize && peers[0] == first && AllOf(peers, Peers)
        invariant [first] + old(Stream()) == peers + Stream()
        invariant |deferred| <= |old(deferred)|
        invariant prioritize.Some? && |peers| > 1 ==> EligibleBatch(e, prioritize.value, peers)
      {
        ghost var before := Stream();
        var input := PopReady(true);
        if input.None? {
          return;
        }
        if input.value.Peer? && e.admit(Messages(peers), input.value.message) {
          var grown := peers + [input.value];
          if prioritize.None? || EligibleBatch(e, prioritize.value, grown) {
            assert peers + before == grown + Stream();
            peers := grown;
            continue;
          }
        }
        deferred := [input.value] + deferred;
        assert Stream() == before;
        return;
      }
    }

    /**
    Looks for the first peer message, past execute requests if it may; anything else in front
    of it, or nothing ready, puts everything back.
    */
    method FindPeer(prioritize: bool) returns (first: Option<Input>, bypassed: seq<Input>)
      modifies this`deferred, this`channel, this`receives
      ensures first.None? ==> Stream() == old(Stream()) && bypassed == []
      ensures first.Some? ==> first.value.Peer? && bypassed + ([first.value] + Stream()) == old(Stream())
      ensures |bypassed| <= Reach(prioritize)
      ensures forall i | 0 <= i < |bypassed| :: bypassed[i].Client? && bypassed[i].execute
      ensures first.None? ==> |deferred| <= |old(deferred)| || |deferred| <= batchSize + 1
      ensures first.Some? ==> |bypassed| + 1 + |deferred| <= |old(deferred)| || deferred == []
      ensures first.None? ==> forall k: nat :: !PeerAt(old(deferred), Reach(prioritize), k)
    {
      bypassed := [];
      while true
        invariant bypassed + Stream() == old(Stream())
        invariant |bypassed| <= Reach(prioritize)
        invariant forall i | 0 <= i < |bypassed| :: bypassed[i].Client? && bypassed[i].execute
        invariant |bypassed| + |deferred| <= |old(deferred)| || deferred == []
        invariant |old(deferred)| <= |bypassed| + |deferred| && old(deferred) <= old(Stream())
        decreases |Stream()|
      {
        var input := PopReady(prioritize);
        if input.None? {
          AllPassed(old(deferred), bypassed, channel, Reach(prioritize));
          RestoreDeferred(bypassed);
          return None, [];
        }
        MovesOver(bypassed, input.value, Stream());
        if input.value.Peer? {
          return Some(input.value), bypassed;
        } else if prioritize && input.value.Client? && input.value.execute && |bypassed| < batchSize {
          bypassed := bypassed + [input.value];
        } else {
          Blocked(old(deferred), bypassed, input.value, Stream(), Reach(prioritize));
          RestoreDeferred(bypassed + [input.value]);
          return None, [];
        }
      }
    }

    /** Puts inputs back by pushing them to the front from the last to the first: they keep their order. */
    method RestoreDeferred(inputs: seq<Input>)
      modifies this`deferred
      ensures deferred == inputs + old(deferred) && Stream() == inputs + old(Stream())
    {
      var left := |inputs|;
      while left > 0
        invariant 0 <= left <= |inputs|
        invariant deferred == inputs[left..] + old(deferred)
      {
        left := left - 1;
        deferred := [inputs[left]] + deferred;
        assert inputs[left..] == [inputs[left]] + inputs[left + 1..];
      }
      assert inputs[0..] == inputs;
      assert inputs + old(deferred) + channel == inputs + (old(deferred) + channel);
    }

    /**
    The no-wait lookahead. Either the stream of inputs is unchanged, or it loses one batch of
    eligible peer messages, which may stand behind at most `batchSize` execute requests; those
    go back to the front in their order. A peer message in the queue that it reaches and that
    may run is taken.
    */
    method TakeReadyPeers(e: Engine, prioritize: bool)
      returns (taken: Option<seq<Input>>, ghost front: seq<Input>, ghost rest: seq<Input>)
      requires peerBatchSize >= 1
      modifies this`deferred, this`channel, this`receives, this`bypassedInputs
      ensures taken.None? ==> Stream() == old(Stream()) && bypassedInputs == old(bypassedInputs)
      ensures taken.Some? ==>
                && old(Stream()) == front + taken.value + rest && Stream() == front + rest
                && 1 <= |taken.value| <= peerBatchSize
                && |front| <= Reach(prioritize) && |front| <= |deferred|
                && (forall i | 0 <= i < |front| :: front[i].Client? && front[i].execute)
                && AllOf(taken.value, Peers) && EligibleBatch(e, prioritize, taken.value)
                && bypassedInputs == old(bypassedInputs) + |front|
      ensures MustTake(e, prioritize, old(deferred), Reach(prioritize)) ==> taken.Some?
      ensures |deferred| <= |old(deferred)| || |deferred| <= batchSize + 1
    {
      ghost var whole, queue := Stream(), deferred;
      front, rest := [], [];
      var found, bypassed := FindPeer(prioritize);
      if found.None? {
        return None, [], [];
      }
      var first := found.value;
      if !EligibleBatch(e, prioritize, [first]) {
        MovesOver(bypassed, first, Stream());
        NotEligible(e, prioritize, queue, bypassed, first, Stream(), Reach(prioritize));
        RestoreDeferred(bypassed + [first]);
        return None, [], [];
      }
      var peers := Grow(e, first, Some(prioritize));
      rest := Stream();
      assert whole == bypassed + peers + rest;
      assert peers == [first] || |peers| > 1;
      RestoreDeferred(bypassed);
      bypassedInputs := bypassedInputs + |bypassed|;
      return Some(peers), bypassed, rest;
    }

    /** Ready clients, up to a full batch of commands, the first input that is not one, or nothing ready. */
    method CollectReadyClients(start: seq<nat>, executeOnly: bool) returns (commands: seq<nat>)
      requires Valid() && InHand(Current(), start, 1) && mark + |start| <= batchSize && Kept(Current(), admits, start)
      modifies this`deferred, this`channel, this`receives, this`handled, this`mark
      ensures Valid() && mark == 0 && InHand(Current(), commands, 1) && Kept(Current(), admits, commands)
      ensures start <= commands && |commands| <= batchSize
      ensures |old(handled)| <= |handled|
      ensures |commands| == batchSize || NoMoreClients(executeOnly)
      ensures |Stream()| <= |old(Stream())|
    {
      commands := start;
      while |commands| < batchSize
        invariant Valid() && InHand(Current(), commands, 1) && mark + |commands| <= batchSize
        invariant Kept(Current(), admits, commands)
        invariant start <= commands && |old(handled)| <= |handled| && |Stream()| <= |old(Stream())|
        decreases |Stream()|
      {
        var more;
        commands, more := CollectOne(commands, executeOnly);
        if !more {
          break;
        }
      }
    }

    /** Takes one more ready client, or puts back what stands there instead. */
    method CollectOne(start: seq<nat>, executeOnly: bool) returns (commands: seq<nat>, more: bool)
      requires Valid() && InHand(Current(), start, 1) && mark + |start| <= batchSize && |start| < batchSize
      requires Kept(Current(), admits, start)
      modifies this`deferred, this`channel, this`receives, this`handled, this`mark
      ensures Valid() && InHand(Current(), commands, 1) && mark + |commands| <= batchSize
      ensures Kept(Current(), admits, commands)
      ensures start <= commands && |old(handled)| <= |handled| && |Stream()| <= |old(Stream())|
      ensures more ==> |Stream()| < |old(Stream())|
      ensures !more ==> mark == 0 && NoMoreClients(executeOnly)
    {
      ghost var v := Current();
      var input := PopReady(true);
      if input.None? {
        return start, false;
      }
      assert v.Stream()[1..] == Stream();
      if input.value.Client? && (!executeOnly || input.value.execute) {
        commands := HandleClient(input.value, start, v);
        return commands, true;
      }
      PutBack(input.value, v);
      return start, false;
    }

    /** An input that was not wanted stays first. */
    method PutBack(input: Input, ghost v: View)
      requires Good(v) && v.mark == 0 && !(combine && priority) && |deferred| <= batchSize
      requires v == Current().(deferred := v.deferred, channel := v.channel) && v.Stream() == [input] + Stream()
      modifies this`deferred
      ensures Valid() && Current() == v.(deferred := deferred, channel := channel) && Stream() == v.Stream()
      ensures deferred != [] && deferred[0] == input
    {
      deferred := [input] + deferred;
      assert Stream() == v.Stream();
      RequeueKeeps(v, Current());
    }

    /** One client request: an admitted execute request joins the commands, the rest is answered. */
    method HandleClient(input: Input, start: seq<nat>, ghost v: View) returns (commands: seq<nat>)
      requires Good(v) && InHand(v, start, 1) && v.mark + |start| <= batchSize && !(combine && priority)
      requires Kept(v, admits, start)
      requires input.Client? && |v.Stream()| > 0 && v.Stream()[0] == input
      requires v == Current().(deferred := v.deferred, channel := v.channel)
      requires Stream() == v.Stream()[1..]
      requires if v.deferred == [] then deferred == [] else deferred == v.deferred[1..]
      modifies this`handled, this`mark
      ensures Valid() && InHand(Current(), commands, 1) && Kept(Current(), admits, commands)
      ensures commands == start + ChosenOne(input, admits)
      ensures mark + |commands| <= batchSize || (mark == 0 && |commands| == |start| + 1)
      ensures handled == v.handled + [input.arrival]
    {
      handled := handled + [input.arrival];
      mark := if mark == 0 then 0 else mark - 1;
      TakeClientKeeps(v, Current());
      TakeClientInHand(v, Current(), start);
      TakeClientChooses(v, Current(), admits, start);
      commands := start;
      if input.execute && admits(input.arrival) {
        commands := commands + [input.arrival];
      }
      assert start + [] == start;
    }

    /** The engine gets a batch of peers, past the requests in `front`. */
    ghost method RecordPeers(v: View, front: seq<Input>, peers: seq<Input>, rest: seq<Input>, commands: seq<nat>)
      requires Good(v) && InHand(v, commands, 1) && v.mark == 0 && !(combine && priority) && Kept(v, admits, commands)
      requires v == Current().(deferred := v.deferred, channel := v.channel)
      requires v.Stream() == front + peers + rest && Stream() == front + rest
      requires 1 <= |peers| <= peerBatchSize && AllOf(peers, Peers)
      requires forall i | 0 <= i < |front| :: front[i].Client? && front[i].execute
      requires |front| <= batchSize && |front| <= |deferred| <= batchSize + 1
      modifies this`trace, this`mark
      ensures Valid() && InHand(Current(), commands, 2) && mark == |front| && Kept(Current(), admits, commands)
      ensures trace == old(trace) + [PeerBatch(Arrivals(peers))]
    {
      trace := trace + [PeerBatch(Arrivals(peers))];
      mark := |front|;
      DeliverKeeps(v, Current(), front, peers, rest, commands);
      DeliverChooses(v, Current(), front, peers, rest, admits, commands);
    }

    /** The peer messages that stand first in line go to the engine as one batch. */
    method DeliverFirst(e: Engine, first: Input, ghost v: View) returns (peers: seq<Input>)
      requires Good(v) && v.mark == 0 && first.Peer? && !(combine && priority) && Kept(v, admits, [])
      requires v == Current().(deferred := v.deferred, channel := v.channel)
      requires v.Stream() == [first] + Stream() && |deferred| <= batchSize
      modifies this`deferred, this`channel, this`receives, this`trace, this`mark
      ensures Valid() && mark == 0 && AllOf(peers, Peers) && peers != [] && peers[0] == first
      ensures Kept(Current(), admits, []) && |Stream()| <= |old(Stream())|
      ensures trace == old(trace) + [PeerBatch(Arrivals(peers))]
    {
      peers := Grow(e, first, None);
      ghost var rest := Stream();
      assert v.Stream() == [] + peers + rest && Stream() == [] + rest;
      RecordPeers(v, [], peers, rest, []);
    }

    /** A peer message goes to the engine with those behind it, and ready requests may share the step. */
    method OnPeer(e: Engine, first: Input, ghost v: View)
      requires Good(v) && v.mark == 0 && first.Peer? && !(combine && priority) && Kept(v, admits, [])
      requires v == Current().(deferred := v.deferred, channel := v.channel)
      requires v.Stream() == [first] + Stream() && |deferred| <= batchSize
      modifies this
      ensures Valid() && Kept(Current(), admits, []) && |Stream()| <= |old(Stream())|
      ensures old(trace) < trace && |old(handled)| <= |handled|
      ensures trace[|old(trace)|].PeerBatch? && |trace| <= |old(trace)| + 2
    {
      var peers := DeliverFirst(e, first, v);
      if combine && e.combinable(Messages(peers)) {
        var _ := ProposeReady();
      }
    }

    /** Execute requests right behind a peer batch share its engine step. */
    method ProposeReady() returns (commands: seq<nat>)
      requires Valid() && mark == 0 && Kept(Current(), admits, [])
      modifies this`deferred, this`channel, this`receives, this`handled, this`mark, this`trace
      ensures Valid() && Kept(Current(), admits, []) && |old(handled)| <= |handled| && |Stream()| <= |old(Stream())|
      ensures trace == old(trace) + if commands == [] then [] else [Proposals(commands)]
      ensures |commands| == batchSize || NoMoreClients(true)
    {
      commands := CollectReadyClients([], true);
      if commands != [] {
        Propose(commands, 1);
      }
    }

    /** A client turn: ready requests are collected, and what was admitted is proposed before it ends. */
    method OnClient(e: Engine, input: Input, ghost v: View)
      requires Good(v) && input.Client? && !(combine && priority) && Kept(v, admits, [])
      requires v == Current().(deferred := v.deferred, channel := v.channel)
      requires v.Stream() == [input] + Stream()
      requires if v.deferred == [] then deferred == [] else deferred == v.deferred[1..]
      modifies this
      ensures Valid() && Kept(Current(), admits, []) && |Stream()| <= |old(Stream())|
      ensures old(trace) <= trace && |old(handled)| <= |handled|
    {
      assert Stream() == v.Stream()[1..];
      var commands := HandleClient(input, [], v);
      commands := CollectReadyClients(commands, false);
      if commands != [] {
        Submit(e, commands);
      }
    }

    /**
    The commands in hand go to the engine: alone on the speculative path, with the peers behind
    them when steps are combined, or after safe peers when completions have priority.
    */
    method Submit(e: Engine, commands: seq<nat>)
      requires Valid() && mark == 0 && InHand(Current(), commands, 1) && Kept(Current(), admits, commands)
      modifies this`deferred, this`channel, this`receives, this`bypassedInputs, this`trace, this`mark
      modifies this`prioritizedBatches, this`prioritizedEvents
      ensures Valid() && Kept(Current(), admits, []) && |Stream()| <= |old(Stream())|
      ensures old(trace) < trace && |trace| <= |old(trace)| + 2
      ensures !combine ==>
                && trace[|trace| - 1] == Proposals(commands)
                && (!(priority && |commands| > maxSpeculative) ==> |trace| == |old(trace)| + 1)
      ensures combine ==>
                && trace[|old(trace)|] == Proposals(commands)
                && (MustTake(e, false, old(deferred), 0) ==> |trace| == |old(trace)| + 2)
      ensures priority && |commands| > maxSpeculative && MustTake(e, true, old(deferred), batchSize) ==>
                |trace| == |old(trace)| + 2
    {
      if combine {
        SubmitCombined(e, commands);
      } else {
        SubmitAlone(e, commands);
      }
    }

    method SubmitAlone(e: Engine, commands: seq<nat>)
      requires Valid() && mark == 0 && InHand(Current(), commands, 1) && Kept(Current(), admits, commands)
      modifies this`deferred, this`channel, this`receives, this`bypassedInputs, this`trace, this`mark
      modifies this`prioritizedBatches, this`prioritizedEvents
      ensures Valid() && Kept(Current(), admits, []) && |Stream()| <= |old(Stream())|
      ensures old(trace) < trace && |trace| <= |old(trace)| + 2 && trace[|trace| - 1] == Proposals(commands)
      ensures !(priority && |commands| > maxSpeculative) ==> |trace| == |old(trace)| + 1
      ensures priority && |commands| > maxSpeculative && MustTake(e, true, old(deferred), batchSize) ==>
                |trace| == |old(trace)| + 2
    {
      if priority && |commands| > maxSpeculative {
        PrioritizePeers(e, commands);
        Propose(commands, 2);
      } else {
        Propose(commands, 1);
      }
    }

    /** The engine gets the commands in hand. */
    method Propose(commands: seq<nat>, ghost bound: nat)
      requires Valid() && InHand(Current(), commands, bound) && bound <= 2 && Kept(Current(), admits, commands)
      modifies this`trace
      ensures Valid() && trace == old(trace) + [Proposals(commands)] && Kept(Current(), admits, [])
    {
      InHandLoosens(Current(), commands, bound);
      ProposeKeeps(Current(), commands);
      ProposeChooses(Current(), admits, commands);
      trace := trace + [Proposals(commands)];
    }

    method SubmitCombined(e: Engine, commands: seq<nat>)
      requires Valid() && mark == 0 && InHand(Current(), commands, 1) && Kept(Current(), admits, commands)
      modifies this`deferred, this`channel, this`receives, this`bypassedInputs, this`trace, this`mark
      ensures Valid() && Kept(Current(), admits, []) && |Stream()| <= |old(Stream())|
      ensures old(trace) + [Proposals(commands)] <= trace && |trace| <= |old(trace)| + 2
      ensures MustTake(e, false, old(deferred), 0) ==> |trace| == |old(trace)| + 2
    {
      Propose(commands, 1);
      CombinePeers(e);
    }

    /** Peers right behind the proposals just made share their engine step. */
    method CombinePeers(e: Engine)
      requires Valid() && mark == 0 && Kept(Current(), admits, [])
      modifies this`deferred, this`channel, this`receives, this`bypassedInputs, this`trace, this`mark
      ensures Valid() && Kept(Current(), admits, []) && |Stream()| <= |old(Stream())|
      ensures trace == old(trace) || (|trace| == |old(trace)| + 1 && old(trace) <= trace)
      ensures MustTake(e, false, old(deferred), 0) ==> |trace| == |old(trace)| + 1
    {
      ghost var before := Current();
      var taken, front, rest := TakeReadyPeers(e, false);
      if taken.Some? {
        RecordPeers(before, front, taken.value, rest, []);
      } else {
        RequeueKeeps(before, Current());
      }
    }

    /** Safe peer messages go first, past the commands in hand and a few more requests. */
    method PrioritizePeers(e: Engine, commands: seq<nat>)
      requires Valid() && mark == 0 && InHand(Current(), commands, 1) && Kept(Current(), admits, commands)
      modifies this`deferred, this`channel, this`receives, this`bypassedInputs, this`trace, this`mark
      modifies this`prioritizedBatches, this`prioritizedEvents
      ensures Valid() && InHand(Current(), commands, 2) && Kept(Current(), admits, commands)
      ensures |Stream()| <= |old(Stream())|
      ensures trace == old(trace) || (|trace| == |old(trace)| + 1 && old(trace) <= trace)
      ensures MustTake(e, true, old(deferred), batchSize) ==> |trace| == |old(trace)| + 1
      ensures prioritizedBatches == old(prioritizedBatches) + |trace| - |old(trace)|
    {
      ghost var before := Current();
      var taken, front, rest := TakeReadyPeers(e, true);
      if taken.Some? {
        prioritizedBatches, prioritizedEvents := prioritizedBatches + 1, prioritizedEvents + |taken.value|;
        RecordPeers(before, front, taken.value, rest, commands);
      } else {
        RequeueKeeps(before, Current());
        InHandLoosens(Current(), commands, 1);
      }
    }

    /** A wake-up carries nothing of its own. */
    method OnWake(input: Input, ghost v: View)
      requires Good(v) && v.mark == 0 && input.Wake? && !(combine && priority) && Kept(v, admits, [])
      requires v == Current().(deferred := v.deferred, channel := v.channel)
      requires v.Stream() == [input] + Stream() && |deferred| <= batchSize + 1
      modifies this`woken
      ensures Valid() && Kept(Current(), admits, []) && woken == old(woken) + [input.arrival]
    {
      assert v.Stream()[0] == input && Stream() == v.Stream()[1..];
      woken := woken + [input.arrival];
      WakeKeeps(v, Current());
      WakeChooses(v, Current(), admits);
    }

    /** One turn of the owner's loop: a tick, a timeout, or one input and what it drags along. */
    method Turn(e: Engine, ticked: bool)
      requires Valid() && Kept(Current(), admits, [])
      modifies this
      ensures Valid() && Kept(Current(), admits, [])
      ensures old(trace) <= trace && |old(handled)| <= |handled|
      ensures !ticked && old(CanReceive()) ==> |Stream()| < |old(Stream())|
      ensures ticked ==> Current() == old(Current())
    {
      if ticked {
        return;
      }
      ghost var v := Current();
      var input := PopReady(true);
      if input.None? {
        return;
      }
      assert v.Stream()[0] == input.value && Stream() == v.Stream()[1..];
      assert !input.value.Client? ==> v.mark == 0 by {
        assert v.mark > 0 ==> v.deferred[0] == v.Stream()[0];
      }
      match input.value {
        case Wake(_) =>
          OnWake(input.value, v);
        case Peer(_, _) =>
          OnPeer(e, input.value, v);
        case Client(_, _) =>
          OnClient(e, input.value, v);
      }
    }

    /**
    Any number of turns, under engine decisions and ticks that may change from turn to turn. At
    the end of every turn the requests proposed so far are exactly the admitted ones among those
    handled, each once and in arrival order.
    */
    method Run(turns: nat, engines: nat -> Engine, ticks: nat -> bool)
      requires Valid() && Kept(Current(), admits, [])
      modifies this
      ensures Valid() && old(trace) <= trace && |old(handled)| <= |handled|
      ensures |deferred| <= batchSize + 1
      ensures handled + Of(Stream(), Clients) == Of(total, Clients)
      ensures Delivered(trace) + Of(Stream(), Peers) == Of(total, Peers)
      ensures Proposed(trace) + Chosen(Stream(), admits) == Chosen(total, admits)
      ensures forall k: nat, x | k < |trace| && trace[k].Proposals? && x in trace[k].commands ::
                Overtakes(trace[..k], x) <= 2 && OvertakingMessages(trace[..k], x) <= 2 * peerBatchSize
    {
      for i := 0 to turns
        invariant Valid() && Kept(Current(), admits, []) && old(trace) <= trace && |old(handled)| <= |handled|
      {
        Turn(engines(i), ticks(i));
      }
      forall k: nat, x | k < |trace| && trace[k].Proposals? && x in trace[k].commands
        ensures Overtakes(trace[..k], x) <= 2 && OvertakingMessages(trace[..k], x) <= 2 * peerBatchSize
      {
        BoundedOvertaking(trace, peerBatchSize, k, x);
      }
      assert Proposed(trace) + [] == Proposed(trace);
    }
  }
}
