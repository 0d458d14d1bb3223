/**
One client operation as the load generator executes it: the same request is sent again and
again, to the node believed to lead, to one named in a reply, or to the next in turn, until
a decisive reply arrives or the deadline passes.

The network is an argument: `network(k, n)` is what attempt `k`, sent to node `n`, brings
back, and `budget` is the number of attempts that begin before the deadline.
*/
module Hops {

  datatype Status = Ok | Error | Other

  datatype Response = Lost | Answer(status: Status, hasResult: bool, leader: nat)

  type Network = (nat, nat) -> Response

  /** Only a result or an outright error ends the operation. */
  predicate Decisive(r: Response) {
    r.Answer? && (r.status.Error? || (r.status.Ok? && r.hasResult))
  }

  predicate Redirects(ids: seq<nat>, target: nat, r: Response) {
    r.Answer? && r.leader != 0 && r.leader != target && r.leader in ids
  }

  ghost predicate Distinct(ids: seq<nat>) {
    forall i, j | 0 <= i < j < |ids| :: ids[i] != ids[j]
  }

  ghost function Position(ids: seq<nat>, target: nat): (p: nat)
    requires target in ids
    ensures p < |ids| && ids[p] == target
  {
    var p: nat :| p < |ids| && ids[p] == target;
    p
  }

  ghost function After(ids: seq<nat>, target: nat): (n: nat)
    requires target in ids
    ensures n in ids
  {
    ids[Wrapped(|ids|, Position(ids, target) + 1)]
  }

  /** The node that attempt `k` is sent to. */
  ghost function Target(ids: seq<nat>, first: nat, network: Network, k: nat): (n: nat)
    requires first in ids
    ensures n in ids
  {
    if k == 0 then first
    else
      var target := Target(ids, first, network, k - 1);
      var r := network(k - 1, target);
      if Redirects(ids, target, r) then r.leader else After(ids, target)
  }

  ghost function At(ids: seq<nat>, first: nat, network: Network, k: nat): Response
    requires first in ids
  {
    network(k, Target(ids, first, network, k))
  }

  ghost function Wrapped(n: nat, i: nat): nat
    requires i < 2 * n
  {
    if i < n then i else i - n
  }

  ghost function Turned(ids: seq<nat>, target: nat, j: nat): (n: nat)
    requires target in ids
    ensures n in ids
  {
    if j == 0 then target else After(ids, Turned(ids, target, j - 1))
  }

  lemma {:induction false} TurnsThrough(ids: seq<nat>, p: nat, j: nat)
    requires Distinct(ids) && p < |ids| && j < |ids|
    ensures Turned(ids, ids[p], j) == ids[Wrapped(|ids|, p + j)]
  {
    if j > 0 {
      TurnsThrough(ids, p, j - 1);
      var q := Wrapped(|ids|, p + j - 1);
      assert Position(ids, ids[q]) == q;
    }
  }

  /** Attempt `i` is not redirected. */
  ghost predicate Stays(ids: seq<nat>, first: nat, network: Network, i: nat)
    requires first in ids
  {
    !Redirects(ids, Target(ids, first, network, i), At(ids, first, network, i))
  }

  lemma TurnsOnce(ids: seq<nat>, first: nat, network: Network, i: nat)
    requires first in ids && Stays(ids, first, network, i)
    ensures Target(ids, first, network, i + 1) == After(ids, Target(ids, first, network, i))
  {
  }

  lemma {:induction false} TurnsFrom(ids: seq<nat>, first: nat, network: Network, k: nat, j: nat)
    requires first in ids && forall i: nat | k <= i < k + j :: Stays(ids, first, network, i)
    ensures Target(ids, first, network, k + j) == Turned(ids, Target(ids, first, network, k), j)
  {
    if j > 0 {
      TurnsFrom(ids, first, network, k, j - 1);
      TurnsOnce(ids, first, network, k + j - 1);
    }
  }

  /** Without redirections between them, as many attempts as there are nodes reach every node. */
  lemma EveryNodeIsTried(ids: seq<nat>, first: nat, network: Network, k: nat, node: nat) returns (j: nat)
    requires Distinct(ids) && first in ids && node in ids
    requires forall i: nat | k <= i < k + |ids| - 1 :: Stays(ids, first, network, i)
    ensures j < |ids| && Target(ids, first, network, k + j) == node
  {
    var p := Position(ids, Target(ids, first, network, k));
    var q := Position(ids, node);
    j := if q >= p then q - p else q + |ids| - p;
    TurnsFrom(ids, first, network, k, j);
    TurnsThrough(ids, p, j);
  }

  /** A node that gives results, while the others do not end the operation and redirect nowhere else. */
  ghost predicate Leads(ids: seq<nat>, network: Network, leader: nat) {
    leader in ids && forall k: nat, n: nat | n in ids :: Behaves(ids, leader, n, network(k, n))
  }

  ghost predicate Behaves(ids: seq<nat>, leader: nat, n: nat, r: Response) {
    if n == leader then r.Answer? && r.status.Ok? && r.hasResult
    else !Decisive(r) && (Redirects(ids, n, r) ==> r.leader == leader)
  }

  /** None of the first attempts reaches the leader, and none is redirected. */
  ghost predicate Misses(ids: seq<nat>, first: nat, network: Network, leader: nat, k: nat)
    requires first in ids
  {
    forall i: nat | i < k :: Target(ids, first, network, i) != leader && Stays(ids, first, network, i)
  }

  lemma {:induction false} ReachesOrMisses(ids: seq<nat>, first: nat, network: Network, leader: nat, k: nat)
    returns (j: nat)
    requires first in ids && Leads(ids, network, leader)
    ensures j <= k
    ensures Target(ids, first, network, j) == leader || (j == k && Misses(ids, first, network, leader, k))
  {
    j := 0;
    if k > 0 {
      j := ReachesOrMisses(ids, first, network, leader, k - 1);
      if Target(ids, first, network, j) != leader {
        assert Behaves(ids, leader, Target(ids, first, network, j), At(ids, first, network, j));
        j := k;
      }
    }
  }

  /** A leader is reached within one round of the nodes. */
  lemma LeaderIsReached(ids: seq<nat>, first: nat, network: Network, leader: nat) returns (j: nat)
    requires Distinct(ids) && first in ids && Leads(ids, network, leader)
    ensures j < |ids| && Target(ids, first, network, j) == leader
  {
    j := ReachesOrMisses(ids, first, network, leader, |ids| - 1);
    if Target(ids, first, network, j) != leader {
      j := EveryNodeIsTried(ids, first, network, 0, leader);
    }
  }

  /** Without a decisive reply in a whole round there is no leader. */
  lemma NoLeader(ids: seq<nat>, first: nat, network: Network, budget: nat)
    requires Distinct(ids) && first in ids && forall k | 0 <= k < budget :: !Decisive(At(ids, first, network, k))
    ensures |ids| <= budget ==> forall l: nat :: !Leads(ids, network, l)
  {
    if l: nat :| |ids| <= budget && Leads(ids, network, l) {
      var j := LeaderIsReached(ids, first, network, l);
      LeaderDecides(ids, first, network, l, j);
    }
  }

  /** The answer to attempt `k` names another known node as leader. */
  ghost predicate Hinted(ids: seq<nat>, first: nat, network: Network, k: nat)
    requires first in ids
  {
    var r := At(ids, first, network, k);
    r.Answer? && r.leader in ids && r.leader != 0 && r.leader != Target(ids, first, network, k)
  }

  /** The next attempt goes to the node that an answer names. */
  lemma HintIsFollowed(ids: seq<nat>, first: nat, network: Network, k: nat)
    requires first in ids && Hinted(ids, first, network, k)
    ensures Target(ids, first, network, k + 1) == At(ids, first, network, k).leader
  {
  }

  /** The first decisive reply is the leader's, if there is one, within a round and right after a hint. */
  lemma FirstResultLeads(ids: seq<nat>, first: nat, network: Network, k: nat)
    requires Distinct(ids) && first in ids && Decisive(At(ids, first, network, k))
    requires forall i | 0 <= i < k :: !Decisive(At(ids, first, network, i))
    ensures forall l: nat | Leads(ids, network, l) ::
              && k < |ids| && Target(ids, first, network, k) == l && At(ids, first, network, k).status.Ok?
              && forall i: nat | Hinted(ids, first, network, i) :: k <= i + 1
  {
    forall l: nat | Leads(ids, network, l)
      ensures k < |ids| && Target(ids, first, network, k) == l && At(ids, first, network, k).status.Ok?
      ensures forall i: nat | Hinted(ids, first, network, i) :: k <= i + 1
    {
      var j := LeaderIsReached(ids, first, network, l);
      LeaderDecides(ids, first, network, l, j);
      assert Behaves(ids, l, Target(ids, first, network, k), At(ids, first, network, k));
      forall i: nat | Hinted(ids, first, network, i) ensures k <= i + 1 {
        HintedDecides(ids, first, network, l, i);
      }
    }
  }

  lemma LeaderDecides(ids: seq<nat>, first: nat, network: Network, leader: nat, k: nat)
    requires first in ids && Leads(ids, network, leader) && Target(ids, first, network, k) == leader
    ensures Decisive(At(ids, first, network, k))
  {
    assert Behaves(ids, leader, leader, network(k, leader));
  }

  /** After a hint the leader answers, unless the attempt that got the hint had reached it itself. */
  lemma HintedDecides(ids: seq<nat>, first: nat, network: Network, leader: nat, i: nat)
    requires first in ids && Leads(ids, network, leader) && Hinted(ids, first, network, i)
    ensures Decisive(At(ids, first, network, i)) || Decisive(At(ids, first, network, i + 1))
  {
    assert Behaves(ids, leader, Target(ids, first, network, i), At(ids, first, network, i));
    HintIsFollowed(ids, first, network, i);
    if Target(ids, first, network, i) != leader {
      LeaderDecides(ids, first, network, leader, i + 1);
    }
  }

  datatype Outcome = Replied(response: Response) | Unknown

  class Client {
    const ids: seq<nat>
    var leader: nat

    ghost function Start(): (n: nat)
      reads this
      requires ids != []
      ensures n in ids
    {
      if leader in ids then leader else ids[0]
    }

    constructor (ids: seq<nat>, leader: nat)
      ensures this.ids == ids && this.leader == leader
    {
      this.ids, this.leader := ids, leader;
    }

    /**
    The reply is the first decisive one, or it is unknown and none of the attempts before the
    deadline was decisive; the leader is remembered exactly on a result.
    */
    method Execute(network: Network, budget: nat) returns (reply: Outcome, attempts: nat)
      requires ids != [] && Distinct(ids)
      modifies this
      ensures attempts <= budget
      ensures var first := old(Start());
              && (forall k | 0 <= k < attempts - 1 :: !Decisive(At(ids, first, network, k)))
              && (reply.Unknown? ==>
                    && attempts == budget && leader == old(leader)
                    && forall k | 0 <= k < budget :: !Decisive(At(ids, first, network, k)))
              && (reply.Replied? ==>
                    && 1 <= attempts && reply.response == At(ids, first, network, attempts - 1)
                    && Decisive(reply.response)
                    && leader == (if reply.response.status.Ok? then Target(ids, first, network, attempts - 1)
                                  else old(leader)))
      ensures forall l: nat | Leads(ids, network, l) && |ids| <= budget ::
                && reply.Replied? && reply.response.status.Ok? && leader == l && attempts <= |ids|
                && forall k: nat | Hinted(ids, old(Start()), network, k) :: attempts <= k + 2
    {
      var target := if leader in ids then leader else ids[0];
      ghost var first := target;
      attempts := 0;
      while attempts < budget
        invariant attempts <= budget && leader == old(leader) && target == Target(ids, first, network, attempts)
        invariant forall k | 0 <= k < attempts :: !Decisive(At(ids, first, network, k))
      {
        var r := network(attempts, target);
        assert r == At(ids, first, network, attempts);
        attempts := attempts + 1;
        if r.Answer? && r.status.Ok? && r.hasResult {
          leader := target;
          FirstResultLeads(ids, first, network, attempts - 1);
          return Replied(r), attempts;
        }
        if r.Answer? && r.status.Error? {
          FirstResultLeads(ids, first, network, attempts - 1);
          return Replied(r), attempts;
        }
        if r.Answer? && r.leader != 0 && r.leader != target && r.leader in ids {
          target := r.leader;
        } else {
          target := Turn(target);
        }
      }
      NoLeader(ids, first, network, budget);
      return Unknown, attempts;
    }

    method Turn(target: nat) returns (next: nat)
      requires target in ids && Distinct(ids)
      ensures next == After(ids, target)
    {
      var at := 0;
      while at < |ids| && ids[at] != target
        invariant at <= |ids| && forall j | 0 <= j < at :: ids[j] != target
      {
        at := at + 1;
      }
      assert Position(ids, target) == at;
      Wraps(|ids|, at + 1);
      next := ids[(at + 1) % |ids|];
    }
  }

  lemma Wraps(n: nat, i: nat)
    requires 1 <= i <= n
    ensures i % n == Wrapped(n, i)
  {
    if i == n {
      assert n % n == 0;
    }
  }
}
