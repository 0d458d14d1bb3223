/**
The actor's table of pending operations, and the calls it makes on the diagnostics. The table
admits an identity only while it is vacant and gives up an operation only together with its
timeline, so the node meets the discipline that the timelines need, and what it publishes is
always accepted.
*/
module Admission {
  import opened Kv
  import opened Counting
  import opened Timelines
  import Durable

  type Id = (string, nat)

  function IdOf(c: Command): Id {
    (c.client, c.sequence)
  }

  function FlightId(f: Flight): Id {
    (f.client, f.sequence)
  }

  /** A pending operation and how many replies wait for it. */
  datatype Pending = Pending(command: Command, replies: nat)

  datatype Admitted = Entered | Joined | Conflict

  /** Every operation in flight is pending. */
  ghost predicate Covered(fs: seq<Flight>, pending: map<Id, Pending>) {
    forall i | 0 <= i < |fs| :: FlightId(fs[i]) in pending
  }

  /** Every entry stands under its own identity. */
  ghost predicate Keyed(pending: map<Id, Pending>) {
    forall id <- pending :: IdOf(pending[id].command) == id
  }

  /** Exactly the command's own operation leaves. */
  ghost predicate LeavesOnly(before: seq<Flight>, after: seq<Flight>, c: Command) {
    forall f: Flight :: f in after <==> f in before && FlightId(f) != IdOf(c)
  }

  /** Exactly the operations of these identities left. */
  ghost predicate Left(before: seq<Flight>, after: seq<Flight>, ids: set<Id>) {
    forall f: Flight :: f in after <==> f in before && FlightId(f) !in ids
  }

  lemma FinishLeaves(n: Node, c: Command, now: int, mix: Mix)
    requires Inv(n)
    ensures LeavesOnly(n.inFlight, Finish(n, c, now, mix).inFlight, c)
  {
    var fs, k := n.inFlight, Find(n.inFlight, c);
    if k < |fs| {
      forall i | 0 <= i < |fs| && i != k ensures FlightId(fs[i]) != IdOf(c) {
        OtherIdentity(fs[i], fs[k], c);
      }
      assert fs == fs[..k] + [fs[k]] + fs[k + 1..];
    }
  }

  lemma OtherIdentity(f: Flight, g: Flight, c: Command)
    requires Matches(g, c) && (!SameIdentity(f, g) || !SameIdentity(g, f))
    ensures FlightId(f) != IdOf(c)
  {
  }

  lemma {:induction false} WithoutLeaves(fs: seq<Flight>, c: Command)
    ensures LeavesOnly(fs, Without(fs, c), c)
  {
    if fs != [] {
      WithoutLeaves(fs[..|fs| - 1], c);
      assert fs == fs[..|fs| - 1] + [fs[|fs| - 1]];
    }
  }

  lemma StillCovered(before: seq<Flight>, after: seq<Flight>, c: Command, pending: map<Id, Pending>)
    requires Covered(before, pending) && LeavesOnly(before, after, c)
    ensures Covered(after, pending - {IdOf(c)})
  {
    forall i | 0 <= i < |after| ensures FlightId(after[i]) in pending - {IdOf(c)} {
      assert after[i] in after;
      var j :| 0 <= j < |before| && before[j] == after[i];
    }
  }

  lemma CoveredBySome(fs: seq<Flight>, pending: map<Id, Pending>)
    requires Covered(fs, pending)
    ensures fs != [] ==> pending != map[]
  {
    if fs != [] {
      assert FlightId(fs[0]) in pending;
    }
  }

  lemma AdvanceCovered(fs: seq<Flight>, gs: seq<Flight>, pending: map<Id, Pending>)
    requires Covered(fs, pending) && Advances(fs, gs)
    ensures Covered(gs, pending)
  {
    forall i | 0 <= i < |gs| ensures FlightId(gs[i]) in pending {
      assert SameIdentity(fs[i], gs[i]) && FlightId(fs[i]) in pending;
    }
  }

  /** How many of the replies are still open. */
  function Waiting(p: Pending, open: nat): nat {
    if open < p.replies then open else p.replies
  }

  lemma FollowAdvances(n: Node, call: Call, mix: Mix)
    requires call.Submitting? || call.Observing? || call.Dispatching? || call.Marking?
    requires Allowed(n, call)
    ensures Advances(n.inFlight, Called(n, call, mix).inFlight)
  {
    match call {
      case Submitting(cs, now) => SubmitAdvances(n.inFlight, cs, now);
      case Observing(index, boundary, now) =>
        EvictKeeps(n.(marks := WithMark(n.marks, index, boundary, now)));
      case Dispatching(entries, now) => DispatchKeeps(n, entries, now);
      case Marking(entries, stage, now) => MarkAdvances(n.inFlight, entries, stage, now);
    }
  }

  class Actor {
    const diagnostics: Diagnostics
    var pending: map<Id, Pending>

    ghost predicate Valid()
      reads this, diagnostics
    {
      diagnostics.Valid() && Covered(diagnostics.inFlight, pending) && Keyed(pending)
    }

    constructor (diagnostics: Diagnostics)
      requires diagnostics.Valid() && diagnostics.inFlight == []
      ensures Valid() && this.diagnostics == diagnostics && pending == map[]
    {
      this.diagnostics, pending := diagnostics, map[];
    }

    /** A valid execute request on the leader: it enters, joins the same command, or conflicts. */
    method Execute(c: Command, ingress: int, now: int) returns (r: Admitted)
      requires Valid()
      modifies this, diagnostics
      ensures Valid()
      ensures r == if IdOf(c) !in old(pending) then Entered
                   else if old(pending)[IdOf(c)].command == c then Joined else Conflict
      ensures pending == match r
                         case Entered => old(pending)[IdOf(c) := Pending(c, 1)]
                         case Joined => old(pending)[IdOf(c) := Pending(c, old(pending)[IdOf(c)].replies + 1)]
                         case Conflict => old(pending)
    {
      if IdOf(c) in pending {
        if pending[IdOf(c)].command != c {
          return Conflict;
        }
        pending := pending[IdOf(c) := Pending(c, pending[IdOf(c)].replies + 1)];
        return Joined;
      }
      forall i | 0 <= i < |diagnostics.inFlight| ensures !Matches(diagnostics.inFlight[i], c) {
        assert FlightId(diagnostics.inFlight[i]) in pending;
      }
      diagnostics.AdmitOperation(c, ingress, now);
      pending := pending[IdOf(c) := Pending(c, 1)];
      return Entered;
    }

    /** Sends a response to all who wait; the first that gets through completes the timeline. */
    method Answer(c: Command, response: Outcome, replies: nat, sent: nat -> bool, now: int)
      returns (responses: seq<Outcome>, completed: bool)
      requires diagnostics.Valid()
      modifies diagnostics
      ensures |responses| == replies && forall k | 0 <= k < replies :: responses[k] == response
      ensures diagnostics.Valid() && (completed <==> exists k :: 0 <= k < replies && sent(k))
      ensures diagnostics.View() ==
              if completed then Called(old(diagnostics.View()), Completing(c, now), diagnostics.mix)
              else old(diagnostics.View())
    {
      completed, responses := false, [];
      for k := 0 to replies
        invariant |responses| == k && forall j | 0 <= j < k :: responses[j] == response
        invariant diagnostics.Valid() && (completed <==> exists j :: 0 <= j < k && sent(j))
        invariant diagnostics.View() ==
                  if completed then Called(old(diagnostics.View()), Completing(c, now), diagnostics.mix)
                  else old(diagnostics.View())
      {
        responses := responses + [response];
        if sent(k) && !completed {
          diagnostics.ClientCompletedAt(c, now);
          completed := true;
        }
      }
    }

    /** Answers all who wait; the timeline is completed if a reply gets through, and otherwise given up. */
    method Settle(c: Command, response: Outcome, replies: nat, sent: nat -> bool, now: int)
      returns (responses: seq<Outcome>)
      requires diagnostics.Valid()
      modifies diagnostics
      ensures |responses| == replies && forall k | 0 <= k < replies :: responses[k] == response
      ensures diagnostics.Valid() && diagnostics.View() == Settled(old(diagnostics.View()), c, replies, sent, now)
      ensures LeavesOnly(old(diagnostics.inFlight), diagnostics.inFlight, c)
    {
      FinishLeaves(diagnostics.View(), c, now, diagnostics.mix);
      WithoutLeaves(diagnostics.inFlight, c);
      var completed;
      responses, completed := Answer(c, response, replies, sent, now);
      if !completed {
        diagnostics.AbandonOperation(c);
      }
    }

    ghost function Settled(n: Node, c: Command, replies: nat, sent: nat -> bool, now: int): Node {
      if exists k :: 0 <= k < replies && sent(k) then Called(n, Completing(c, now), diagnostics.mix)
      else Called(n, Abandoning(c), diagnostics.mix)
    }

    /**
    An applied command is answered to all who wait: with its result, or with a conflict if they
    wait for another command of that identity. `sent` says which replies get through.
    */
    method Resolve(c: Command, result: Outcome, sent: nat -> bool, now: int) returns (responses: seq<Outcome>)
      requires Valid()
      modifies this, diagnostics
      ensures Valid() && pending == old(pending) - {IdOf(c)}
      ensures |responses| == (if IdOf(c) in old(pending) then old(pending)[IdOf(c)].replies else 0)
      ensures forall k | 0 <= k < |responses| ::
                responses[k] == if old(pending)[IdOf(c)].command == c then result else Failure("identity_conflict")
      ensures diagnostics.View() ==
              if IdOf(c) !in old(pending) then old(diagnostics.View())
              else Settled(old(diagnostics.View()), c, old(pending)[IdOf(c)].replies, sent, now)
    {
      if IdOf(c) !in pending {
        assert pending - {IdOf(c)} == pending;
        return [];
      }
      ghost var before := diagnostics.inFlight;
      var response := if pending[IdOf(c)].command == c then result else Failure("identity_conflict");
      responses := Settle(c, response, pending[IdOf(c)].replies, sent, now);
      StillCovered(before, diagnostics.inFlight, c, pending);
      pending := pending - {IdOf(c)};
    }

    /** Timelines of these identities were given up, each counted once; all else is as before. */
    ghost predicate GaveUp(before: Node, ids: set<Id>)
      reads diagnostics
    {
      var after := diagnostics.View();
      && Left(before.inFlight, after.inFlight, ids) && |after.inFlight| <= |before.inFlight|
      && after == before.(
           inFlight := after.inFlight,
           counters := before.counters.(
             abandoned := before.counters.abandoned + |before.inFlight| - |after.inFlight|))
    }

    /** Gives up these operations: they leave the table, and then their timelines. */
    method GiveUp(ids: set<Id>)
      requires Valid() && ids <= pending.Keys
      modifies this, diagnostics
      ensures Valid() && pending == old(pending) - ids && GaveUp(old(diagnostics.View()), ids)
    {
      ghost var before := pending;
      var commands := pending;
      var todo := ids;
      pending := pending - ids;
      while todo != {}
        invariant todo <= ids && diagnostics.Valid() && pending == before - ids && commands == before
        invariant Covered(diagnostics.inFlight, before - (ids - todo))
        invariant GaveUp(old(diagnostics.View()), ids - todo)
        decreases todo
      {
        var id := Pick(todo);
        AbandonOne(commands[id].command, before - (ids - todo), old(diagnostics.View()), ids - todo);
        assert before - (ids - todo) - {id} == before - (ids - (todo - {id}));
        assert ids - todo + {id} == ids - (todo - {id});
        todo := todo - {id};
      }
      assert ids - {} == ids;
    }

    /** The timeline of one operation that has left the table is given up. */
    method AbandonOne(c: Command, ghost table: map<Id, Pending>, ghost before: Node, ghost gone: set<Id>)
      requires diagnostics.Valid() && Covered(diagnostics.inFlight, table) && GaveUp(before, gone)
      modifies diagnostics
      ensures diagnostics.Valid() && Covered(diagnostics.inFlight, table - {IdOf(c)})
      ensures GaveUp(before, gone + {IdOf(c)})
    {
      ghost var fs := diagnostics.inFlight;
      WithoutLeaves(fs, c);
      StillCovered(fs, Without(fs, c), c, table);
      WithoutSound(fs, c, diagnostics.seen);
      WithoutCounts(fs, c);
      diagnostics.AbandonOperation(c);
    }

    /** A tick: closed replies are dropped, and operations nobody waits for are given up. */
    method Tick(waiting: Id -> nat)
      requires Valid()
      modifies this, diagnostics
      ensures Valid()
      ensures pending ==
              map id | id in old(pending) && Waiting(old(pending)[id], waiting(id)) > 0 ::
                Pending(old(pending)[id].command, Waiting(old(pending)[id], waiting(id)))
      ensures GaveUp(old(diagnostics.View()),
                set id | id in old(pending) && Waiting(old(pending)[id], waiting(id)) == 0)
    {
      var closed := set id | id in pending && Waiting(pending[id], waiting(id)) == 0;
      GiveUp(closed);
      pending := map id | id in pending :: Pending(pending[id].command, Waiting(pending[id], waiting(id)));
    }

    /** A snapshot takes over: every pending operation is given up. */
    method Install()
      requires Valid()
      modifies this, diagnostics
      ensures Valid() && pending == map[] && diagnostics.inFlight == []
      ensures GaveUp(old(diagnostics.View()), old(pending).Keys)
    {
      GiveUp(pending.Keys);
      CoveredBySome(diagnostics.inFlight, pending);
    }

    /** The calls that follow operations through their stages leave the table as it is. */
    method Follow(call: Call)
      requires Valid() && (call.Submitting? || call.Observing? || call.Dispatching? || call.Marking?)
      requires Allowed(diagnostics.View(), call)
      modifies diagnostics
      ensures Valid() && diagnostics.View() == Called(old(diagnostics.View()), call, diagnostics.mix)
    {
      FollowAdvances(diagnostics.View(), call, diagnostics.mix);
      AdvanceCovered(diagnostics.inFlight, Called(diagnostics.View(), call, diagnostics.mix).inFlight, pending);
      match call {
        case Submitting(cs, now) => diagnostics.ProposalsSubmitted(cs, now);
        case Observing(index, boundary, now) => diagnostics.RaftCommitObserved(index, boundary, now);
        case Dispatching(entries, now) => diagnostics.ApplicationDispatched(entries, now);
        case Marking(entries, stage, now) => diagnostics.MarkApplication(entries, stage, now);
      }
      assert diagnostics.inFlight == diagnostics.View().inFlight;
    }

    /** Whatever the node has done, the verifier accepts what it publishes. */
    method Status() returns (s: Timelines.Status)
      requires Valid()
      ensures Accepts(s)
    {
      InvIsAccepted(diagnostics.View());
      s := Publish(diagnostics.View());
    }
  }
}
