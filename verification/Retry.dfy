/**
The client retry protocol over the deduplicating model. Clients run one operation at a
time and resend it, under the same identity, until a reply arrives or they give up and move
on. Requests can be delivered late and to any node; any copy of a proposed command may be
committed, any number of times, to one totally ordered log. Every node applies the log at
its own pace and answers the operations waiting on it as their entries are applied.

The theorems hold in every run: operations take effect at most once, a waiting operation is
never answered with a session error, and what clients observe is linearizable.
*/
module Retry {
  import opened Kv
  import opened Linearizability
  import Checker

  type Id = (string, nat)

  function IdOf(c: Command): Id {
    (c.client, c.sequence)
  }

  datatype Client = Idle(last: nat) | Waiting(command: Command, start: nat)

  function Last(c: Client): nat {
    match c
    case Idle(last) => last
    case Waiting(command, _) => command.sequence
  }

  /** A node: how much of the log it has applied, and the operations waiting on it. */
  datatype Node = Node(applied: nat, pending: map<Id, Command>)

  datatype System = System(
    initial: map<string, string>,     // values before the run
    clock: nat,
    clients: map<string, Client>,
    started: map<Command, nat>,       // every invoked operation, with its start time
    requests: set<Command>,           // sent, possibly still under way
    proposed: set<Command>,
    log: seq<Command>,                // committed entries
    nodes: seq<Node>,
    replies: set<(Command, Outcome)>,
    history: seq<Event>)              // operations answered with a result

  ghost predicate IsInitial(s: System) {
    && s.clients == map[] && s.started == map[] && s.requests == {} && s.proposed == {} && s.log == []
    && (forall n | 0 <= n < |s.nodes| :: s.nodes[n] == Node(0, map[]))
    && s.replies == {} && s.history == []
  }

  // ---------- Steps ----------

  /** A client that is not waiting starts its next operation. */
  ghost predicate Invokes(s: System, t: System, c: Command) {
    && (c.client in s.clients ==> s.clients[c.client].Idle?)
    && c.sequence == 1 + (if c.client in s.clients then Last(s.clients[c.client]) else 0)
    && Supported(c)
    && t == s.(clients := s.clients[c.client := Waiting(c, s.clock)], started := s.started[c := s.clock])
  }

  /** The waiting operation is sent, or sent again. */
  ghost predicate Sends(s: System, t: System, c: Command) {
    && c.client in s.clients && s.clients[c.client].Waiting? && s.clients[c.client].command == c
    && t == s.(requests := s.requests + {c})
  }

  /** A node that leads takes a request, now or much later, and proposes it. */
  ghost predicate Admits(s: System, t: System, n: nat, c: Command) {
    && n < |s.nodes| && c in s.requests
    && var pending := s.nodes[n].pending;
       if IdOf(c) in pending && pending[IdOf(c)] != c then
         t == s.(replies := s.replies + {(c, Failure("identity_conflict"))})
       else
         t == s.(nodes := s.nodes[n := s.nodes[n].(pending := pending[IdOf(c) := c])],
                 proposed := s.proposed + {c})
  }

  /** A copy of a proposed command enters the log. */
  ghost predicate Commits(s: System, t: System, c: Command) {
    c in s.proposed && t == s.(log := s.log + [c])
  }

  /** A node applies its next entry and answers the operation waiting under its identity. */
  ghost predicate Applies(s: System, t: System, n: nat) {
    && n < |s.nodes| && s.nodes[n].applied < |s.log|
    && var node := s.nodes[n];
       var c := s.log[node.applied];
       var answer := Answer(State(s.initial, map[]), s.log, node.applied);
       if IdOf(c) !in node.pending then
         t == s.(nodes := s.nodes[n := Node(node.applied + 1, node.pending)])
       else
         var waiting := node.pending[IdOf(c)];
         t == s.(nodes := s.nodes[n := Node(node.applied + 1, node.pending - {IdOf(c)})],
                 replies := s.replies + {(waiting, if waiting == c then answer else Failure("identity_conflict"))})
  }

  /** A node forgets operations whose connections closed, restarts, or installs a snapshot. */
  ghost predicate Disturbs(s: System, t: System, n: nat, applied: nat, keep: set<Id>) {
    && n < |s.nodes| && applied <= |s.log|
    && t == s.(nodes := s.nodes[n := Node(applied, map id | id in s.nodes[n].pending && id in keep :: s.nodes[n].pending[id])])
  }

  ghost predicate Receives(s: System, t: System, c: Command, o: Outcome) {
    && c.client in s.clients && s.clients[c.client].Waiting? && s.clients[c.client].command == c
    && (c, o) in s.replies
    && t == s.(clients := s.clients[c.client := Idle(c.sequence)],
               history := s.history + [Event(c, s.clients[c.client].start, s.clock, Reply("ok", Some(o)))])
  }

  /** The deadline passes: the outcome stays unknown and the client moves on. */
  ghost predicate GivesUp(s: System, t: System, k: string) {
    && k in s.clients && s.clients[k].Waiting?
    && t == s.(clients := s.clients[k := Idle(Last(s.clients[k]))])
  }

  ghost predicate Ticks(s: System, t: System, clock: nat) {
    s.clock <= clock && t == s.(clock := clock)
  }

  ghost predicate Next(s: System, t: System) {
    || (exists c :: Invokes(s, t, c))
    || (exists c :: Sends(s, t, c))
    || (exists n, c :: Admits(s, t, n, c))
    || (exists c :: Commits(s, t, c))
    || (exists n :: Applies(s, t, n))
    || (exists n, applied, keep :: Disturbs(s, t, n, applied, keep))
    || (exists c, o :: Receives(s, t, c, o))
    || (exists k :: GivesUp(s, t, k))
    || (exists clock :: Ticks(s, t, clock))
  }

  ghost predicate Link(run: seq<System>, i: int)
    requires 0 <= i < |run| - 1
  {
    Next(run[i], run[i + 1])
  }

  ghost predicate IsRun(run: seq<System>) {
    run != [] && IsInitial(run[0]) && forall i | 0 <= i < |run| - 1 :: Link(run, i)
  }

  // ---------- The first copy of a command ----------

  ghost function FirstAt(log: seq<Command>, c: Command): (p: nat)
    requires c in log
    ensures p < |log| && log[p] == c && forall j | 0 <= j < p :: log[j] != c
  {
    if log[0] == c then 0
    else
      assert log == [log[0]] + log[1..];
      1 + FirstAt(log[1..], c)
  }

  /** The operation took effect at its first copy, and this is what it answered there. */
  ghost predicate Answered(initial: map<string, string>, log: seq<Command>, c: Command, o: Outcome) {
    && c in log && Fresh(log, FirstAt(log, c))
    && o == Answer(State(initial, map[]), log, FirstAt(log, c))
  }

  lemma AnsweredStays(initial: map<string, string>, log: seq<Command>, d: Command, c: Command, o: Outcome)
    requires Answered(initial, log, c, o)
    ensures Answered(initial, log + [d], c, o)
    ensures FirstAt(log + [d], c) == FirstAt(log, c)
  {
    var p := FirstAt(log, c);
    assert (log + [d])[p] == c && (log + [d])[..p] == log[..p];
    assert FirstAt(log + [d], c) == p;
  }

  // ---------- Answers to an operation that no later one supersedes ----------

  /** Nothing of the same client in the log goes beyond `c`. */
  ghost predicate Newest(log: seq<Command>, c: Command) {
    forall d <- log :: d.client == c.client ==> d.sequence < c.sequence || d == c
  }

  lemma FirstCopyIsFresh(log: seq<Command>, c: Command)
    requires c in log && Newest(log, c)
    ensures Fresh(log, FirstAt(log, c))
  {
    var p := FirstAt(log, c);
    forall j | 0 <= j < p && log[j].client == c.client ensures log[j].sequence < c.sequence {
      assert log[j] in log;
    }
  }

  /** From the first copy of the newest operation on, its session stays as that copy left it. */
  lemma SessionHolds(initial: map<string, string>, log: seq<Command>, c: Command, i: nat)
    requires c in log && Newest(log, c) && forall d <- log :: Supported(d)
    requires FirstAt(log, c) < i <= |log|
    ensures var p := FirstAt(log, c);
            Lookup(Run(State(initial, map[]), log[..i]).sessions, c.client) ==
            Some(Session(c.sequence, c, Answer(State(initial, map[]), log, p)))
  {
    FirstCopyIsFresh(log, c);
    SessionStays(initial, log, FirstAt(log, c), i);
  }

  /** Every copy of the newest operation of a client answers what the first copy answered. */
  lemma CopiesAgree(initial: map<string, string>, log: seq<Command>, c: Command, i: nat)
    requires i < |log| && log[i] == c && Newest(log, c) && forall d <- log :: Supported(d)
    ensures Answered(initial, log, c, Answer(State(initial, map[]), log, i))
  {
    var p := FirstAt(log, c);
    FirstCopyIsFresh(log, c);
    if i != p {
      SessionHolds(initial, log, c, i);
    }
  }

  /** An answer at a fresh entry carries no error. */
  lemma AnsweredWithoutError(initial: map<string, string>, log: seq<Command>, c: Command, o: Outcome)
    requires Answered(initial, log, c, o) && forall d <- log :: Supported(d)
    ensures o.error == None
  {
    FreshMeansAbsentOrNewer(initial, log, FirstAt(log, c));
  }

  // ---------- The invariant ----------

  /** Identities are unique and a client's counter covers all it started. */
  ghost predicate ClientsInv(clients: map<string, Client>, started: map<Command, nat>, clock: nat) {
    && (forall c <- started ::
          && c.client in clients && 1 <= c.sequence <= Last(clients[c.client])
          && Supported(c) && started[c] <= clock)
    && (forall a, b | a in started && b in started && IdOf(a) == IdOf(b) :: a == b)
    && (forall k <- clients :: clients[k].Waiting? ==>
          var w := clients[k];
          w.command.client == k && w.command in started && started[w.command] == w.start)
  }

  ghost predicate LogInv(started: map<Command, nat>, requests: set<Command>, proposed: set<Command>, log: seq<Command>) {
    && (forall c <- log :: c in proposed)
    && proposed <= requests
    && (forall c <- requests :: c in started)
  }

  ghost predicate NodesInv(started: map<Command, nat>, log: seq<Command>, nodes: seq<Node>) {
    forall n | 0 <= n < |nodes| ::
      && nodes[n].applied <= |log|
      && forall id <- nodes[n].pending :: nodes[n].pending[id] in started && IdOf(nodes[n].pending[id]) == id
  }

  ghost predicate Superseded(started: map<Command, nat>, c: Command) {
    exists d <- started :: d.client == c.client && c.sequence < d.sequence
  }

  /** A reply carries the operation's one answer, unless its client has long moved on. */
  ghost predicate RepliesInv(
    initial: map<string, string>, started: map<Command, nat>, log: seq<Command>, replies: set<(Command, Outcome)>)
  {
    forall r <- replies :: r.0 in started && (Answered(initial, log, r.0, r.1) || Superseded(started, r.0))
  }

  ghost predicate EventInv(
    initial: map<string, string>, started: map<Command, nat>, log: seq<Command>,
    clients: map<string, Client>, clock: nat, e: Event)
  {
    && e.command in started && e.start == started[e.command] && e.start <= e.end <= clock
    && e.reply.status == "ok" && e.reply.result.Some?
    && Answered(initial, log, e.command, e.reply.result.value)
    && e.command.client in clients
    && var k := clients[e.command.client];
       e.command.sequence <= Last(k) && (k.Waiting? ==> e.command.sequence < Last(k) && e.end <= k.start)
  }

  /** Events of one client come in the order of its sequences, each ended before the next started. */
  ghost predicate Successive(e: Event, f: Event) {
    e.command.client == f.command.client ==> e.command.sequence < f.command.sequence && e.end <= f.start
  }

  ghost predicate HistoryInv(
    initial: map<string, string>, started: map<Command, nat>, log: seq<Command>,
    clients: map<string, Client>, clock: nat, history: seq<Event>)
  {
    && (forall i | 0 <= i < |history| :: EventInv(initial, started, log, clients, clock, history[i]))
    && (forall i, j | 0 <= i < j < |history| :: Successive(history[i], history[j]))
  }

  /** What ended before an operation started stands before it in the log. */
  ghost predicate RealTimeInv(started: map<Command, nat>, log: seq<Command>, history: seq<Event>) {
    forall i, b | 0 <= i < |history| && b in started && history[i].end < started[b] && b in log ::
      history[i].command in log && FirstAt(log, history[i].command) < FirstAt(log, b)
  }

  ghost predicate Inv(s: System) {
    && ClientsInv(s.clients, s.started, s.clock)
    && LogInv(s.started, s.requests, s.proposed, s.log)
    && NodesInv(s.started, s.log, s.nodes)
    && RepliesInv(s.initial, s.started, s.log, s.replies)
    && HistoryInv(s.initial, s.started, s.log, s.clients, s.clock, s.history)
    && RealTimeInv(s.started, s.log, s.history)
  }

  lemma LogIsSupported(s: System)
    requires Inv(s)
    ensures forall c <- s.log :: c in s.started && Supported(c)
  {
  }

  lemma NewestUnlessSuperseded(s: System, c: Command)
    requires Inv(s) && c in s.started
    ensures Superseded(s.started, c) || Newest(s.log, c)
  {
    LogIsSupported(s);
    if !Superseded(s.started, c) {
      forall d <- s.log ensures d.client == c.client ==> d.sequence < c.sequence || d == c {
        assert d in s.started;
        assert IdOf(d) == IdOf(c) ==> d == c;
      }
    }
  }

  // ---------- Every step keeps the invariant ----------

  lemma SupersededStays(started: map<Command, nat>, c: Command, at: nat, d: Command)
    requires Superseded(started, d)
    ensures Superseded(started[c := at], d)
  {
    var x :| x in started && x.client == d.client && d.sequence < x.sequence;
    assert x in started[c := at];
  }

  lemma InvokesKeepsReplies(s: System, t: System, c: Command)
    requires Inv(s) && Invokes(s, t, c)
    ensures RepliesInv(t.initial, t.started, t.log, t.replies)
  {
    forall r <- t.replies ensures r.0 in t.started && (Answered(t.initial, t.log, r.0, r.1) || Superseded(t.started, r.0)) {
      if Superseded(s.started, r.0) {
        SupersededStays(s.started, c, s.clock, r.0);
      }
    }
  }

  lemma InvokesKeepsHistory(s: System, t: System, c: Command)
    requires Inv(s) && Invokes(s, t, c)
    ensures c !in s.started && c !in s.log
    ensures HistoryInv(t.initial, t.started, t.log, t.clients, t.clock, t.history)
  {
    LogIsSupported(s);
    forall i | 0 <= i < |t.history| ensures EventInv(t.initial, t.started, t.log, t.clients, t.clock, t.history[i]) {
      assert EventInv(s.initial, s.started, s.log, s.clients, s.clock, s.history[i]);
    }
  }

  lemma InvokesKeepsClients(s: System, t: System, c: Command)
    requires ClientsInv(s.clients, s.started, s.clock) && Invokes(s, t, c)
    ensures ClientsInv(t.clients, t.started, t.clock)
  {
    forall a, b | a in t.started && b in t.started && IdOf(a) == IdOf(b) ensures a == b {
      assert a != c ==> a in s.started;
      assert b != c ==> b in s.started;
    }
  }

  lemma InvokesKeepsRealTime(s: System, t: System, c: Command)
    requires RealTimeInv(s.started, s.log, s.history) && Invokes(s, t, c) && c !in s.log
    ensures RealTimeInv(t.started, t.log, t.history)
  {
    forall i, b | 0 <= i < |t.history| && b in t.started && t.history[i].end < t.started[b] && b in t.log
      ensures t.history[i].command in t.log && FirstAt(t.log, t.history[i].command) < FirstAt(t.log, b)
    {
      assert b in s.started;
    }
  }

  lemma InvokesKeeps(s: System, t: System, c: Command)
    requires Inv(s) && Invokes(s, t, c)
    ensures Inv(t)
  {
    InvokesKeepsClients(s, t, c);
    InvokesKeepsReplies(s, t, c);
    InvokesKeepsHistory(s, t, c);
    InvokesKeepsRealTime(s, t, c);
  }

  lemma AdmitsKeeps(s: System, t: System, n: nat, c: Command)
    requires Inv(s) && Admits(s, t, n, c)
    ensures Inv(t)
  {
    var pending := s.nodes[n].pending;
    assert IdOf(c) in pending ==> pending[IdOf(c)] == c;
  }

  lemma FirstAtStays(log: seq<Command>, d: Command, c: Command)
    ensures c in log ==> c in log + [d] && FirstAt(log + [d], c) == FirstAt(log, c)
    ensures c !in log && c in log + [d] ==> FirstAt(log + [d], c) == |log|
  {
    if c in log {
      assert (log + [d])[FirstAt(log, c)] == c;
    } else if c in log + [d] {
      forall j | 0 <= j < |log| ensures (log + [d])[j] != c {
        assert log[j] in log;
      }
    }
  }

  lemma CommitsKeepsHistory(s: System, t: System, c: Command)
    requires Inv(s) && Commits(s, t, c)
    ensures RepliesInv(t.initial, t.started, t.log, t.replies)
    ensures HistoryInv(t.initial, t.started, t.log, t.clients, t.clock, t.history)
  {
    forall r <- t.replies ensures Answered(t.initial, t.log, r.0, r.1) || Superseded(t.started, r.0) {
      if Answered(s.initial, s.log, r.0, r.1) {
        AnsweredStays(s.initial, s.log, c, r.0, r.1);
      }
    }
    forall i | 0 <= i < |t.history|
      ensures EventInv(t.initial, t.started, t.log, t.clients, t.clock, t.history[i])
    {
      var e := s.history[i];
      assert EventInv(s.initial, s.started, s.log, s.clients, s.clock, e);
      AnsweredStays(s.initial, s.log, c, e.command, e.reply.result.value);
    }
  }

  lemma CommitsKeepsRealTime(s: System, t: System, c: Command)
    requires Inv(s) && Commits(s, t, c)
    ensures RealTimeInv(t.started, t.log, t.history)
  {
    forall i, b | 0 <= i < |t.history| && b in t.started && t.history[i].end < t.started[b] && b in t.log
      ensures t.history[i].command in t.log && FirstAt(t.log, t.history[i].command) < FirstAt(t.log, b)
    {
      assert EventInv(s.initial, s.started, s.log, s.clients, s.clock, s.history[i]);
      FirstAtStays(s.log, c, t.history[i].command);
      FirstAtStays(s.log, c, b);
    }
  }

  lemma CommitsKeeps(s: System, t: System, c: Command)
    requires Inv(s) && Commits(s, t, c)
    ensures Inv(t)
  {
    CommitsKeepsHistory(s, t, c);
    CommitsKeepsRealTime(s, t, c);
  }

  lemma AppliesKeeps(s: System, t: System, n: nat)
    requires Inv(s) && Applies(s, t, n)
    ensures Inv(t)
  {
    var node := s.nodes[n];
    var c := s.log[node.applied];
    assert c in s.log;
    LogIsSupported(s);
    if IdOf(c) in node.pending {
      assert node.pending[IdOf(c)] == c;
      NewestUnlessSuperseded(s, c);
      if !Superseded(s.started, c) {
        CopiesAgree(s.initial, s.log, c, node.applied);
      }
    }
  }

  /** The reply that a waiting client takes is the one answer of its operation. */
  lemma ReceivesTheAnswer(s: System, c: Command, o: Outcome)
    requires Inv(s) && (c, o) in s.replies
    requires c.client in s.clients && s.clients[c.client].Waiting? && s.clients[c.client].command == c
    ensures Answered(s.initial, s.log, c, o) && c in s.started
  {
    assert !Superseded(s.started, c);
    assert (c, o).0 == c;
  }

  lemma ReceivesKeepsEvent(s: System, t: System, c: Command, o: Outcome, e: Event)
    requires Receives(s, t, c, o) && EventInv(s.initial, s.started, s.log, s.clients, s.clock, e)
    ensures EventInv(t.initial, t.started, t.log, t.clients, t.clock, e)
    ensures e.command.client == c.client ==> e.command.sequence < c.sequence && e.end <= s.clients[c.client].start
  {
  }

  lemma ReceivesKeepsOrder(history: seq<Event>, e: Event)
    requires forall i, j | 0 <= i < j < |history| :: Successive(history[i], history[j])
    requires forall i | 0 <= i < |history| :: Successive(history[i], e)
    ensures forall i, j | 0 <= i < j < |history + [e]| :: Successive((history + [e])[i], (history + [e])[j])
  {
  }

  lemma ReceivesKeepsHistory(s: System, t: System, c: Command, o: Outcome)
    requires Inv(s) && Receives(s, t, c, o)
    ensures HistoryInv(t.initial, t.started, t.log, t.clients, t.clock, t.history)
  {
    ReceivesTheAnswer(s, c, o);
    var n := |s.history|;
    forall i | 0 <= i < n
      ensures EventInv(t.initial, t.started, t.log, t.clients, t.clock, t.history[i])
      ensures Successive(s.history[i], t.history[n])
    {
      ReceivesKeepsEvent(s, t, c, o, s.history[i]);
    }
    ReceivesKeepsOrder(s.history, t.history[n]);
  }

  lemma ReceivesKeeps(s: System, t: System, c: Command, o: Outcome)
    requires Inv(s) && Receives(s, t, c, o)
    ensures Inv(t)
  {
    ReceivesKeepsHistory(s, t, c, o);
    assert ClientsInv(t.clients, t.started, t.clock);
    forall i, b | 0 <= i < |t.history| && b in t.started && t.history[i].end < t.started[b] && b in t.log
      ensures t.history[i].command in t.log && FirstAt(t.log, t.history[i].command) < FirstAt(t.log, b)
    {
      assert i < |s.history|;
    }
  }

  lemma GivesUpKeeps(s: System, t: System, k: string)
    requires Inv(s) && GivesUp(s, t, k)
    ensures Inv(t)
  {
    forall i | 0 <= i < |t.history| ensures EventInv(t.initial, t.started, t.log, t.clients, t.clock, t.history[i]) {
      assert EventInv(s.initial, s.started, s.log, s.clients, s.clock, s.history[i]);
    }
  }

  lemma TicksKeeps(s: System, t: System, clock: nat)
    requires Inv(s) && Ticks(s, t, clock)
    ensures Inv(t)
  {
    forall i | 0 <= i < |t.history| ensures EventInv(t.initial, t.started, t.log, t.clients, t.clock, t.history[i]) {
      assert EventInv(s.initial, s.started, s.log, s.clients, s.clock, s.history[i]);
    }
  }

  lemma NextKeeps(s: System, t: System)
    requires Inv(s) && Next(s, t)
    ensures Inv(t)
  {
    if c :| Invokes(s, t, c) {
      InvokesKeeps(s, t, c);
    } else if c :| Sends(s, t, c) {
    } else if n, c :| Admits(s, t, n, c) {
      AdmitsKeeps(s, t, n, c);
    } else if c :| Commits(s, t, c) {
      CommitsKeeps(s, t, c);
    } else if n :| Applies(s, t, n) {
      AppliesKeeps(s, t, n);
    } else if n, applied, keep :| Disturbs(s, t, n, applied, keep) {
    } else if c, o :| Receives(s, t, c, o) {
      ReceivesKeeps(s, t, c, o);
    } else if k :| GivesUp(s, t, k) {
      GivesUpKeeps(s, t, k);
    } else {
      var clock :| Ticks(s, t, clock);
      TicksKeeps(s, t, clock);
    }
  }

  lemma {:induction false} RunIsSafe(run: seq<System>, i: nat)
    requires IsRun(run) && i < |run|
    ensures Inv(run[i])
  {
    if i > 0 {
      RunIsSafe(run, i - 1);
      assert Link(run, i - 1);
      NextKeeps(run[i - 1], run[i]);
    }
  }

  // ---------- Erased logs, position by position ----------

  lemma {:induction false} ErasedPrefix(log: seq<Command>, i: nat)
    requires i <= |log|
    ensures Erased(log[..i]) <= Erased(log)
    decreases |log|
  {
    if i == |log| {
      assert log[..i] == log;
    } else {
      assert log[..|log| - 1][..i] == log[..i];
      ErasedPrefix(log[..|log| - 1], i);
    }
  }

  ghost function Place(log: seq<Command>, i: nat): nat
    requires i <= |log|
  {
    |Erased(log[..i])|
  }

  /** Where a fresh entry stands once the log is erased. */
  lemma PlaceOf(log: seq<Command>, i: nat)
    requires i < |log| && Fresh(log, i)
    ensures var l := Erased(log);
            Place(log, i) < |l| && l[Place(log, i)] == log[i] && l[..Place(log, i)] == Erased(log[..i])
    ensures FirstAt(log, log[i]) == i
  {
    ErasedPrefix(log, i + 1);
    assert log[..i + 1][..i] == log[..i];
    assert Fresh(log[..i + 1], i);
  }

  lemma PlacesRise(log: seq<Command>, i: nat, j: nat)
    requires i < j <= |log| && Fresh(log, i)
    ensures Place(log, i) < Place(log, j)
  {
    assert log[..j][..i] == log[..i] && log[..j][..i + 1] == log[..i + 1] && log[..i + 1][..i] == log[..i];
    assert Fresh(log[..i + 1], i);
    ErasedPrefix(log[..j], i + 1);
  }

  lemma {:induction false} FreshAt(log: seq<Command>, k: nat) returns (i: nat)
    requires k < |Erased(log)|
    ensures i < |log| && Fresh(log, i) && Place(log, i) == k && Erased(log)[k] == log[i]
  {
    var n := |log| - 1;
    if k < |Erased(log[..n])| {
      i := FreshAt(log[..n], k);
      assert log[..n][..i] == log[..i];
    } else {
      i := n;
    }
  }

  // ---------- What holds in every run ----------

  /** Only the first of all copies of an operation can change any node's state. */
  lemma ExecutesAtMostOnce(run: seq<System>, n: nat, i: nat, j: nat)
    requires IsRun(run) && n < |run| && i < j < |run[n].log|
    requires IdOf(run[n].log[i]) == IdOf(run[n].log[j])
    ensures var s := run[n];
            Run(State(s.initial, map[]), s.log[..j + 1]) == Run(State(s.initial, map[]), s.log[..j])
  {
    var s := run[n];
    RunIsSafe(run, n);
    LogIsSupported(s);
    assert s.log[i] in s.log && s.log[i] in s.log[..j];
    SessionNeverRegresses(State(s.initial, map[]), s.log[i], s.log[..j]);
    assert s.log[..j + 1][..j] == s.log[..j];
  }

  /**
  A reply to an operation that is still waiting is the operation's one answer: never a stale
  sequence, never an identity conflict, and the same from every copy and every node.
  */
  lemma WaitingIsAnsweredProperly(run: seq<System>, n: nat, c: Command, o: Outcome)
    requires IsRun(run) && n < |run|
    requires var s := run[n];
             (c, o) in s.replies && c.client in s.clients &&
             s.clients[c.client].Waiting? && s.clients[c.client].command == c
    ensures o.error == None && Answered(run[n].initial, run[n].log, c, o)
  {
    var s := run[n];
    RunIsSafe(run, n);
    LogIsSupported(s);
    ReceivesTheAnswer(s, c, o);
    AnsweredWithoutError(s.initial, s.log, c, o);
  }

  /** `l` holds what took effect, in order, and explains every reply at its place. */
  ghost predicate TookEffect(s: System, l: seq<Command>) {
    && (forall k | 0 <= k < |l| :: l[k] in s.started && Supported(l[k]))
    && (forall k, m | 0 <= k < m < |l| :: l[k] != l[m])
    && (forall i | 0 <= i < |s.history| :: Explained(s, l, s.history[i]))
  }

  ghost predicate Explained(s: System, l: seq<Command>, e: Event)
    requires forall c <- l :: Supported(c)
  {
    exists k :: PlacedAt(s, l, e, k)
  }

  /** The operation's reply is the plain answer at place `k`, after all that ended before it. */
  ghost predicate PlacedAt(s: System, l: seq<Command>, e: Event, k: nat)
    requires forall c <- l :: Supported(c)
  {
    && k < |l| && l[k] == e.command
    && e.reply.result == Some(Plain(PlainRun(s.initial, l[..k]), l[k]).1)
    && (forall m | 0 <= m < |l| && l[m] in s.started && e.end < s.started[l[m]] :: k < m)
  }

  lemma EventHasPlace(s: System, i: nat)
    requires Inv(s) && i < |s.history|
    requires forall c <- Erased(s.log) :: Supported(c)
    ensures PlacedAt(s, Erased(s.log), s.history[i], Place(s.log, FirstAt(s.log, s.history[i].command)))
  {
    var e := s.history[i];
    assert EventInv(s.initial, s.started, s.log, s.clients, s.clock, e);
    LogIsSupported(s);
    var p := FirstAt(s.log, e.command);
    PlaceOf(s.log, p);
    ErasureKeepsAnswers(s.initial, s.log, p);
    var l, k := Erased(s.log), Place(s.log, p);
    forall m | 0 <= m < |l| && l[m] in s.started && e.end < s.started[l[m]] ensures k < m {
      var j := FreshAt(s.log, m);
      PlaceOf(s.log, j);
      PlacesRise(s.log, p, j);
    }
  }

  lemma ErasedDiffer(log: seq<Command>, k: nat, m: nat)
    requires k < m < |Erased(log)|
    ensures Erased(log)[k] != Erased(log)[m]
  {
    var i := FreshAt(log, k);
    var j := FreshAt(log, m);
    if j < i {
      PlacesRise(log, j, i);
    }
  }

  /**
  Linearizability of every run, also with operations that are still waiting or were given up:
  the fresh entries of the log, each at most once, explain all replies by a plain run and
  respect real time.
  */
  lemma RunIsLinearizable(run: seq<System>, n: nat)
    requires IsRun(run) && n < |run|
    ensures TookEffect(run[n], Erased(run[n].log))
  {
    var s := run[n];
    RunIsSafe(run, n);
    LogIsSupported(s);
    var l := Erased(s.log);
    forall k | 0 <= k < |l| ensures l[k] in s.started && Supported(l[k]) {
      assert l[k] in l;
    }
    forall k, m | 0 <= k < m < |l| ensures l[k] != l[m] {
      ErasedDiffer(s.log, k, m);
    }
    forall i | 0 <= i < |s.history| ensures Explained(s, l, s.history[i]) {
      EventHasPlace(s, i);
    }
  }

  // ---------- Complete histories and the checker ----------

  /** Every operation that was started has been answered with a result. */
  ghost predicate Complete(s: System) {
    forall c <- s.started :: exists i | 0 <= i < |s.history| :: s.history[i].command == c
  }

  ghost function EventOf(history: seq<Event>, c: Command): (i: nat)
    requires exists i | 0 <= i < |history| :: history[i].command == c
    ensures i < |history| && history[i].command == c
  {
    var i: nat :| i < |history| && history[i].command == c;
    i
  }

  ghost function OrderOf(s: System, l: seq<Command>): (order: seq<nat>)
    requires Complete(s) && forall k | 0 <= k < |l| :: l[k] in s.started
    ensures |order| == |l|
    ensures forall k | 0 <= k < |l| :: order[k] < |s.history| && s.history[order[k]].command == l[k]
  {
    seq(|l|, k requires 0 <= k < |l| => EventOf(s.history, l[k]))
  }

  /** The reply is the plain answer after the commands before it. */
  ghost predicate AnswersAt(h: seq<Event>, order: seq<nat>, kv: map<string, string>, log: seq<Command>, k: nat)
    requires Within(h, order) && |log| == |order| && k < |order| && forall c <- log :: Supported(c)
  {
    h[order[k]].reply.result == Some(Plain(PlainRun(kv, log[..k]), h[order[k]].command).1)
  }

  lemma {:induction false} ExplainsFrom(h: seq<Event>, order: seq<nat>, kv: map<string, string>, log: seq<Command>, n: nat)
    requires Within(h, order) && log == Checker.Commands(h, order) && n <= |order| && forall c <- log :: Supported(c)
    requires forall k: nat | k < |order| :: AnswersAt(h, order, kv, log, k)
    ensures Explains(h, order[n..], PlainRun(kv, log[..n]))
    decreases |order| - n
  {
    if n < |order| {
      ExplainsFrom(h, order, kv, log, n + 1);
      assert AnswersAt(h, order, kv, log, n);
      assert log[..n + 1][..n] == log[..n];
      assert order[n..][1..] == order[n + 1..];
    }
  }

  lemma EventIsComplete(s: System, e: Event)
    requires EventInv(s.initial, s.started, s.log, s.clients, s.clock, e)
    requires forall d <- s.log :: Supported(d)
    requires forall c <- s.started :: 1 <= c.sequence && Supported(c)
    ensures Checker.Completed(e) && Checker.WellFormed(e)
  {
    AnsweredWithoutError(s.initial, s.log, e.command, e.reply.result.value);
  }

  lemma HistoryIsInSession(s: System, a: nat, b: nat)
    requires HistoryInv(s.initial, s.started, s.log, s.clients, s.clock, s.history)
    requires Checker.SameClient(s.history, a, b) && Checker.Earlier(s.history, a, b)
    requires Checker.WellFormed(s.history[a]) && Checker.WellFormed(s.history[b])
    ensures Checker.InSession(s.history, a, b)
  {
    assert if a < b then Successive(s.history[a], s.history[b]) else Successive(s.history[b], s.history[a]);
  }

  lemma HistoryIsAdmissible(s: System)
    requires Inv(s) && s.history != []
    ensures Checker.Admissible(s.history)
  {
    var h := s.history;
    LogIsSupported(s);
    forall i | 0 <= i < |h| ensures Checker.Completed(h[i]) && Checker.WellFormed(h[i]) {
      EventIsComplete(s, h[i]);
    }
    forall a: nat, b: nat | Checker.SameClient(h, a, b) && Checker.Earlier(h, a, b) ensures Checker.InSession(h, a, b) {
      HistoryIsInSession(s, a, b);
    }
  }

  lemma EventsAreDistinct(s: System, i: nat, j: nat)
    requires Inv(s) && i < |s.history| && j < |s.history| && s.history[i].command == s.history[j].command
    ensures i == j
  {
    assert i < j ==> Successive(s.history[i], s.history[j]);
    assert j < i ==> Successive(s.history[j], s.history[i]);
  }

  lemma UniquePlace(s: System, l: seq<Command>, e: Event, k: nat)
    requires forall c <- l :: Supported(c)
    requires forall i, j | 0 <= i < j < |l| :: l[i] != l[j]
    requires Explained(s, l, e) && k < |l| && l[k] == e.command
    ensures PlacedAt(s, l, e, k)
  {
    var p :| PlacedAt(s, l, e, p);
    assert p == k;
  }

  /** In the order given by `l`, every event stands at its own place. */
  lemma PlacedInOrder(s: System, l: seq<Command>, k: nat)
    requires Complete(s) && TookEffect(s, l) && k < |l|
    ensures PlacedAt(s, l, s.history[OrderOf(s, l)[k]], k)
  {
    UniquePlace(s, l, s.history[OrderOf(s, l)[k]], k);
  }

  lemma AppearsInOrder(s: System, l: seq<Command>, order: seq<nat>, x: nat)
    requires Inv(s) && x < |s.history| && |order| == |l|
    requires forall c <- l :: Supported(c)
    requires forall k | 0 <= k < |l| :: order[k] < |s.history| && s.history[order[k]].command == l[k]
    requires Explained(s, l, s.history[x])
    ensures x in order
  {
    var k: nat :| PlacedAt(s, l, s.history[x], k);
    EventsAreDistinct(s, order[k], x);
  }

  lemma OrderIsComplete(s: System, l: seq<Command>)
    requires Inv(s) && Complete(s) && TookEffect(s, l)
    ensures Enumerates(OrderOf(s, l), Positions(|s.history|))
  {
    var h, order := s.history, OrderOf(s, l);
    forall x: nat ensures x in order <==> x in Positions(|h|) {
      if x < |h| {
        AppearsInOrder(s, l, order, x);
      }
    }
    forall k, m | 0 <= k < m < |order| ensures order[k] != order[m] {
      assert h[order[k]].command == l[k] && h[order[m]].command == l[m];
    }
  }

  lemma OrderIsTimely(s: System, l: seq<Command>)
    requires Inv(s) && Complete(s) && TookEffect(s, l)
    ensures Respects(s.history, OrderOf(s, l))
  {
    var h, order := s.history, OrderOf(s, l);
    forall k, m | 0 <= k < m < |order| ensures !Before(h, order[m], order[k]) {
      PlacedInOrder(s, l, m);
      assert EventInv(s.initial, s.started, s.log, s.clients, s.clock, h[order[k]]);
      assert h[order[k]].command == l[k];
    }
  }

  lemma OrderExplains(s: System, l: seq<Command>)
    requires Inv(s) && Complete(s) && TookEffect(s, l)
    requires forall i | 0 <= i < |s.history| :: Checker.WellFormed(s.history[i])
    ensures Explains(s.history, OrderOf(s, l), s.initial)
  {
    var h, order := s.history, OrderOf(s, l);
    forall k | 0 <= k < |order| ensures Usable(h, order[k]) {
      assert Checker.WellFormed(h[order[k]]);
    }
    assert Checker.Commands(h, order) == l;
    forall k: nat | k < |order| ensures AnswersAt(h, order, s.initial, l, k) {
      PlacedInOrder(s, l, k);
    }
    ExplainsFrom(h, order, s.initial, l, 0);
    assert order[0..] == order && l[..0] == [];
  }

  /**
  A complete history is linearizable in the checker's own sense and passes its screening, so
  the checker can report neither "failed" nor "invalid" on it.
  */
  lemma CompleteHistoryIsAccepted(run: seq<System>, n: nat)
    requires IsRun(run) && n < |run| && Complete(run[n])
    ensures Linearizable(run[n].history, run[n].initial)
    ensures run[n].history != [] ==> Checker.Admissible(run[n].history)
  {
    var s := run[n];
    RunIsSafe(run, n);
    RunIsLinearizable(run, n);
    if s.history != [] {
      HistoryIsAdmissible(s);
    }
    OrderIsComplete(s, Erased(s.log));
    OrderIsTimely(s, Erased(s.log));
    OrderExplains(s, Erased(s.log));
    assert Linearizes(s.history, OrderOf(s, Erased(s.log)), s.initial);
  }
}
