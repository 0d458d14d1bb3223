/**
The retry protocol is never stuck: whatever has happened before, a waiting operation can still
be sent, proposed, committed, applied and answered, with no further step of any other client.
*/
module Progress {
  import opened Kv
  import opened Linearizability
  import opened Retry

  /** The states of a run from any state on. */
  ghost predicate IsPath(path: seq<System>) {
    path != [] && forall i | 0 <= i < |path| - 1 :: Link(path, i)
  }

  lemma Extends(path: seq<System>, t: System)
    requires IsPath(path) && Next(path[|path| - 1], t)
    ensures IsPath(path + [t])
  {
    var longer := path + [t];
    forall i | 0 <= i < |longer| - 1 ensures Link(longer, i) {
      if i < |path| - 1 {
        assert Link(path, i);
      }
    }
  }

  lemma {:induction false} PathKeeps(path: seq<System>, i: nat)
    requires IsPath(path) && i < |path| && Inv(path[0])
    ensures Inv(path[i])
  {
    if i > 0 {
      PathKeeps(path, i - 1);
      assert Link(path, i - 1);
      NextKeeps(path[i - 1], path[i]);
    }
  }

  /** The client waits for this operation, and a node is there to answer it. */
  ghost predicate Waits(s: System, c: Command) {
    s.nodes != [] && c.client in s.clients && s.clients[c.client].Waiting? && s.clients[c.client].command == c
  }

  ghost predicate Replied(s: System, c: Command) {
    exists o: Outcome :: (c, o) in s.replies
  }

  /** Clients, history and clock are as they were. */
  ghost predicate Quiet(s: System, t: System) {
    t.clients == s.clients && t.history == s.history && t.clock == s.clock && |t.nodes| == |s.nodes|
  }

  /** The operation waits at the first node and stands last in the log, where the node has not come yet. */
  ghost predicate OnItsWay(s: System, c: Command) {
    && Waits(s, c) && s.log != [] && s.log[|s.log| - 1] == c && s.nodes[0].applied < |s.log|
    && IdOf(c) in s.nodes[0].pending && s.nodes[0].pending[IdOf(c)] == c
  }

  /** What stands under the identity of a waiting operation is that operation. */
  lemma NoConflict(s: System, n: nat, c: Command)
    requires Inv(s) && Waits(s, c) && n < |s.nodes| && IdOf(c) in s.nodes[n].pending
    ensures s.nodes[n].pending[IdOf(c)] == c
  {
    assert s.nodes[n].pending[IdOf(c)] in s.started;
  }

  /** A waiting operation can be sent, taken by a node and committed. */
  lemma GetsUnderWay(s: System, c: Command) returns (path: seq<System>)
    requires Inv(s) && Waits(s, c)
    ensures IsPath(path) && path[0] == s
    ensures var t := path[|path| - 1]; Quiet(s, t) && OnItsWay(t, c)
  {
    var sent := s.(requests := s.requests + {c});
    assert Sends(s, sent, c);
    var node := sent.nodes[0];
    var taken := sent.(nodes := sent.nodes[0 := node.(pending := node.pending[IdOf(c) := c])],
                       proposed := sent.proposed + {c});
    if IdOf(c) in node.pending {
      NoConflict(s, 0, c);
    }
    assert Admits(sent, taken, 0, c);
    var committed := taken.(log := taken.log + [c]);
    assert Commits(taken, committed, c);
    Extends([s], sent);
    Extends([s] + [sent], taken);
    Extends([s] + [sent] + [taken], committed);
    path := [s] + [sent] + [taken] + [committed];
  }

  /** The state after the first node has applied its next entry. */
  ghost function Applied(s: System): System
    requires s.nodes != [] && s.nodes[0].applied < |s.log|
  {
    var node := s.nodes[0];
    var c := s.log[node.applied];
    var answer := Answer(State(s.initial, map[]), s.log, node.applied);
    if IdOf(c) !in node.pending then s.(nodes := s.nodes[0 := Node(node.applied + 1, node.pending)])
    else
      var waiting := node.pending[IdOf(c)];
      s.(nodes := s.nodes[0 := Node(node.applied + 1, node.pending - {IdOf(c)})],
         replies := s.replies + {(waiting, if waiting == c then answer else Failure("identity_conflict"))})
  }

  lemma AppliedNext(s: System, c: Command)
    requires OnItsWay(s, c)
    ensures Next(s, Applied(s)) && Quiet(s, Applied(s))
    ensures Replied(Applied(s), c) || OnItsWay(Applied(s), c)
    ensures Applied(s).log == s.log && Applied(s).nodes[0].applied == s.nodes[0].applied + 1
  {
    assert Applies(s, Applied(s), 0);
    var d, answer := s.log[s.nodes[0].applied], Answer(State(s.initial, map[]), s.log, s.nodes[0].applied);
    if IdOf(d) == IdOf(c) {
      assert (c, if c == d then answer else Failure("identity_conflict")) in Applied(s).replies;
    }
  }

  /** A node that applies the log comes to the operation, and answers it. */
  lemma {:induction false} GetsReplied(s: System, c: Command) returns (path: seq<System>)
    requires OnItsWay(s, c)
    ensures IsPath(path) && path[0] == s
    ensures var t := path[|path| - 1]; Quiet(s, t) && Replied(t, c)
    decreases |s.log| - s.nodes[0].applied
  {
    var t := Applied(s);
    AppliedNext(s, c);
    if Replied(t, c) {
      Extends([s], t);
      path := [s] + [t];
    } else {
      var rest := GetsReplied(t, c);
      Prepends(s, rest);
      path := [s] + rest;
    }
  }

  lemma Prepends(s: System, rest: seq<System>)
    requires IsPath(rest) && Next(s, rest[0])
    ensures IsPath([s] + rest)
  {
    Joins([s], rest);
  }

  lemma Joins(a: seq<System>, b: seq<System>)
    requires IsPath(a) && IsPath(b) && Next(a[|a| - 1], b[0])
    ensures IsPath(a + b)
  {
    var whole := a + b;
    forall i | 0 <= i < |whole| - 1 ensures Link(whole, i) {
      if i < |a| - 1 {
        assert Link(a, i);
      } else if i >= |a| {
        assert Link(b, i - |a|);
      }
    }
  }

  /** Up to the reply, nothing happens to clients and history. */
  lemma Replies(s: System, c: Command) returns (path: seq<System>)
    requires Inv(s) && Waits(s, c)
    ensures IsPath(path) && path[0] == s
    ensures var t := path[|path| - 1]; Quiet(s, t) && Replied(t, c)
  {
    var start := GetsUnderWay(s, c);
    var rest := GetsReplied(start[|start| - 1], c);
    Overlaps(start, rest);
    path := start[..|start| - 1] + rest;
  }

  /** A reply to a waiting operation can be received, and is its proper answer. */
  lemma Receipt(t: System, c: Command) returns (done: System, o: Outcome)
    requires Inv(t) && Waits(t, c) && Replied(t, c)
    ensures Next(t, done) && Completed(t, done, c, o)
  {
    o :| (c, o) in t.replies;
    ReceivesTheAnswer(t, c, o);
    done := t.(clients := t.clients[c.client := Idle(c.sequence)],
               history := t.history + [Event(c, t.clients[c.client].start, t.clock, Reply("ok", Some(o)))]);
    assert Receives(t, done, c, o);
  }

  lemma Completes(s: System, c: Command) returns (path: seq<System>, o: Outcome)
    requires Inv(s) && Waits(s, c)
    ensures IsPath(path) && path[0] == s && Completed(s, path[|path| - 1], c, o)
  {
    path := Replies(s, c);
    PathKeeps(path, |path| - 1);
    var done;
    done, o := Receipt(path[|path| - 1], c);
    Extends(path, done);
    path := path + [done];
  }

  /** Nothing but the operation's completion happened to clients and history: it has its proper answer. */
  ghost predicate Completed(s: System, t: System, c: Command, o: Outcome)
    requires Waits(s, c)
  {
    && t.clients == s.clients[c.client := Idle(c.sequence)]
    && t.history == s.history + [Event(c, s.clients[c.client].start, s.clock, Reply("ok", Some(o)))]
    && Answered(t.initial, t.log, c, o)
  }

  /**
  However a run has gone, an operation that waits at its end can be completed: the run has a
  continuation that ends with the operation's proper answer in the history.
  */
  lemma WaitingCanFinish(run: seq<System>, c: Command) returns (longer: seq<System>, o: Outcome)
    requires IsRun(run) && Waits(run[|run| - 1], c)
    ensures IsRun(longer) && run <= longer && Completed(run[|run| - 1], longer[|longer| - 1], c, o)
  {
    var n := |run| - 1;
    RunIsSafe(run, n);
    var path;
    path, o := Completes(run[n], c);
    Overlaps(run, path);
    longer := run[..n] + path;
    assert run == run[..n] + [path[0]];
  }

  /** Two paths of which one ends where the other begins make one. */
  lemma Overlaps(a: seq<System>, b: seq<System>)
    requires IsPath(a) && IsPath(b) && a[|a| - 1] == b[0]
    ensures IsPath(a[..|a| - 1] + b) && (a[..|a| - 1] + b)[0] == a[0]
  {
    var whole, n := a[..|a| - 1] + b, |a| - 1;
    forall i | 0 <= i < |whole| - 1 ensures Link(whole, i) {
      if i < n {
        assert Link(a, i);
      } else {
        assert Link(b, i - n);
      }
    }
  }
}
