/**
The replicated key-value model: commands, outcomes, the plain transition that the
history checker replays, and the session-deduplicating state machine that every
node applies to its log.

`Transition` is the checker's notion of one operation on one key. `Step` wraps it in
session deduplication; the class `Model` is the imperative form of the node's code and
is proved to compute `Step`. The lemmas at the end say what deduplication achieves over
a whole log.
*/
module Kv {

  datatype Option<+T> = None | Some(value: T)

  datatype Kind = Put | Get | Cas | Unsupported(name: string)

  datatype Command = Command(
    client: string, sequence: nat, kind: Kind,
    key: string, value: string, expected: Option<string>)

  datatype Outcome = Outcome(value: Option<string>, swapped: Option<bool>, error: Option<string>)

  datatype Session = Session(sequence: nat, command: Command, outcome: Outcome)

  datatype State = State(values: map<string, string>, sessions: map<string, Session>)

  function Failure(reason: string): Outcome {
    Outcome(None, None, Some(reason))
  }

  function Lookup<K, V>(m: map<K, V>, k: K): Option<V> {
    if k in m then Some(m[k]) else None
  }

  predicate Supported(c: Command) {
    !c.kind.Unsupported?
  }

  // ---------- One operation ----------

  /** One operation on the value of its key, as the history checker replays it. */
  function Transition(v: Option<string>, c: Command): (Option<string>, Outcome)
    requires Supported(c)
  {
    match c.kind
    case Put => (Some(c.value), Outcome(Some(c.value), None, None))
    case Get => (v, Outcome(v, None, None))
    case Cas =>
      var v' := if v == c.expected then Some(c.value) else v;
      (v', Outcome(v', Some(v == c.expected), None))
  }

  /** The same operation on a whole store, with no sessions. */
  function Plain(kv: map<string, string>, c: Command): (map<string, string>, Outcome)
    requires Supported(c)
  {
    var (v, out) := Transition(Lookup(kv, c.key), c);
    (if v.Some? then kv[c.key := v.value] else kv, out)
  }

  /** Session deduplication around `Plain`. */
  function Step(s: State, c: Command): (State, Outcome) {
    if c.client in s.sessions && c.sequence < s.sessions[c.client].sequence then
      (s, Failure("stale_sequence"))
    else if c.client in s.sessions && c.sequence == s.sessions[c.client].sequence then
      var known := s.sessions[c.client];
      (s, if c == known.command then known.outcome else Failure("identity_conflict"))
    else if !Supported(c) then
      (s, Failure("invalid_command"))
    else
      var (kv, out) := Plain(s.values, c);
      (State(kv, s.sessions[c.client := Session(c.sequence, c, out)]), out)
  }

  /** The node's own object: two maps, updated in place. */
  class Model {
    var values: map<string, string>
    var sessions: map<string, Session>

    function Contents(): State
      reads this
    {
      State(values, sessions)
    }

    constructor ()
      ensures Contents() == State(map[], map[])
    {
      values, sessions := map[], map[];
    }

    method Apply(c: Command) returns (out: Outcome)
      modifies this
      ensures (Contents(), out) == Step(old(Contents()), c)
    {
      if c.client in sessions {
        var known := sessions[c.client];
        if c.sequence < known.sequence {
          return Failure("stale_sequence");
        }
        if c.sequence == known.sequence {
          return if c == known.command then known.outcome else Failure("identity_conflict");
        }
      }
      out := Outcome(None, None, None);
      match c.kind {
        case Put =>
          values := values[c.key := c.value];
        case Get =>
        case Cas =>
          var matches := Lookup(values, c.key) == c.expected;
          out := out.(swapped := Some(matches));
          if matches {
            values := values[c.key := c.value];
          }
        case Unsupported(_) =>
          return out.(error := Some("invalid_command"));
      }
      out := out.(value := Lookup(values, c.key));
      assert values == Plain(old(values), c).0;
      sessions := sessions[c.client := Session(c.sequence, c, out)];
    }
  }

  // ---------- Whole logs ----------

  function Run(s: State, log: seq<Command>): State {
    if log == [] then s else Step(Run(s, log[..|log| - 1]), log[|log| - 1]).0
  }

  /** What the entry at position `i` of the log answers. */
  function Answer(s: State, log: seq<Command>, i: nat): Outcome
    requires i < |log|
  {
    Step(Run(s, log[..i]), log[i]).1
  }

  function PlainRun(kv: map<string, string>, log: seq<Command>): map<string, string>
    requires forall c <- log :: Supported(c)
  {
    if log == [] then kv else Plain(PlainRun(kv, log[..|log| - 1]), log[|log| - 1]).0
  }

  /** The sequence of the entry at `i` exceeds every earlier one of the same client. */
  predicate Fresh(log: seq<Command>, i: nat)
    requires i < |log|
  {
    forall j | 0 <= j < i :: log[j].client == log[i].client ==> log[j].sequence < log[i].sequence
  }

  /** The log with every entry that is not fresh erased. */
  function Erased(log: seq<Command>): (r: seq<Command>)
    ensures forall c <- r :: c in log
  {
    if log == [] then []
    else
      var n := |log| - 1;
      Erased(log[..n]) + (if Fresh(log, n) then [log[n]] else [])
  }

  /** A session is open exactly for the clients in the log, at their greatest sequence. */
  ghost predicate SessionsMatch(sessions: map<string, Session>, log: seq<Command>) {
    && (forall c <- log :: c.client in sessions && c.sequence <= sessions[c.client].sequence)
    && (forall k <- sessions ::
          && sessions[k].command in log && sessions[k].command.client == k
          && sessions[k].command.sequence == sessions[k].sequence)
  }

  lemma SessionsAfterStep(s: State, log: seq<Command>, c: Command)
    requires SessionsMatch(s.sessions, log) && Supported(c)
    ensures SessionsMatch(Step(s, c).0.sessions, log + [c])
  {
    var after := Step(s, c).0.sessions;
    forall d <- log + [c] ensures d.client in after && d.sequence <= after[d.client].sequence {
      assert d in log || d == c;
    }
    forall k <- after
      ensures
        && after[k].command in log + [c] && after[k].command.client == k
        && after[k].command.sequence == after[k].sequence
    {
      if k in s.sessions && after[k] == s.sessions[k] {
        assert s.sessions[k].command in log;
      } else {
        assert c in log + [c];
      }
    }
  }

  lemma {:induction false} SessionsFollowLog(kv: map<string, string>, log: seq<Command>)
    requires forall c <- log :: Supported(c)
    ensures SessionsMatch(Run(State(kv, map[]), log).sessions, log)
  {
    if log != [] {
      var n := |log| - 1;
      SessionsFollowLog(kv, log[..n]);
      SessionsAfterStep(Run(State(kv, map[]), log[..n]), log[..n], log[n]);
      assert log == log[..n] + [log[n]];
    }
  }

  /**
  Exactly-once erasure. Replaying a log through the deduplicating model leaves the same
  values as a plain run of its fresh entries.
  */
  lemma {:induction false} ErasureKeepsValues(kv: map<string, string>, log: seq<Command>)
    requires forall c <- log :: Supported(c)
    ensures Run(State(kv, map[]), log).values == PlainRun(kv, Erased(log))
  {
    if log != [] {
      var n := |log| - 1;
      ErasureKeepsValues(kv, log[..n]);
      FreshMeansAbsentOrNewer(kv, log, n);
      var rest := Erased(log[..n]);
      if Fresh(log, n) {
        assert (rest + [log[n]])[..|rest|] == rest;
      } else {
        assert rest + [] == rest;
      }
    }
  }

  /** Every fresh entry answers what the plain run of the erased log answers at that point. */
  lemma ErasureKeepsAnswers(kv: map<string, string>, log: seq<Command>, i: nat)
    requires i < |log| && Fresh(log, i)
    requires forall c <- log :: Supported(c)
    ensures Answer(State(kv, map[]), log, i) == Plain(PlainRun(kv, Erased(log[..i])), log[i]).1
  {
    ErasureKeepsValues(kv, log[..i]);
    FreshMeansAbsentOrNewer(kv, log, i);
  }

  /** Freshness, a property of the log, is what the session table tests. */
  lemma FreshMeansAbsentOrNewer(kv: map<string, string>, log: seq<Command>, i: nat)
    requires i < |log| && forall c <- log :: Supported(c)
    ensures var sessions := Run(State(kv, map[]), log[..i]).sessions;
            Fresh(log, i) <==>
            (log[i].client in sessions ==> sessions[log[i].client].sequence < log[i].sequence)
  {
    SessionsFollowLog(kv, log[..i]);
    var sessions := Run(State(kv, map[]), log[..i]).sessions;
    if log[i].client in sessions {
      var j :| 0 <= j < i && log[j] == sessions[log[i].client].command;
      assert Fresh(log, i) ==> log[j].sequence < log[i].sequence;
    }
    forall j | 0 <= j < i && log[j].client == log[i].client
      ensures log[j].client in sessions && log[j].sequence <= sessions[log[j].client].sequence
    {
      assert log[j] in log[..i];
    }
  }

  /** A plain step moves no other key. */
  lemma PlainTouchesOneKey(kv: map<string, string>, c: Command)
    requires Supported(c)
    ensures Lookup(Plain(kv, c).0, c.key) == Transition(Lookup(kv, c.key), c).0
    ensures forall k | k != c.key :: Lookup(Plain(kv, c).0, k) == Lookup(kv, k)
  {
  }

  lemma {:induction false} RunSplits(s: State, a: seq<Command>, b: seq<Command>)
    ensures Run(s, a + b) == Run(Run(s, a), b)
  {
    if b == [] {
      assert a + b == a;
    } else {
      var n := |b| - 1;
      assert (a + b)[..|a| + n] == a + b[..n];
      RunSplits(s, a, b[..n]);
    }
  }

  /** Once a supported command has been applied, its client's session stays at or past it. */
  lemma {:induction false} SessionNeverRegresses(s: State, c: Command, log: seq<Command>)
    requires Supported(c) && c in log
    ensures var sessions := Run(s, log).sessions;
            c.client in sessions && c.sequence <= sessions[c.client].sequence
  {
    var n := |log| - 1;
    assert log == log[..n] + [log[n]];
    if c in log[..n] {
      SessionNeverRegresses(s, c, log[..n]);
    }
  }

  lemma CopyChangesNothing(s: State, before: seq<Command>, c: Command)
    requires c in before
    ensures Run(s, before + [c]) == Run(s, before)
  {
    assert (before + [c])[..|before|] == before;
    if Supported(c) {
      SessionNeverRegresses(s, c, before);
    }
  }

  /**
  Inserting a copy of any command anywhere after its original changes neither the final
  state nor the answer of any entry that follows.
  */
  lemma CopyIsInvisible(s: State, before: seq<Command>, c: Command, after: seq<Command>)
    requires c in before
    ensures Run(s, before + [c] + after) == Run(s, before + after)
    ensures forall j: nat | |before| <= j < |before + after| ::
              Answer(s, before + [c] + after, j + 1) == Answer(s, before + after, j)
  {
    CopyChangesNothing(s, before, c);
    RunSplits(s, before + [c], after);
    RunSplits(s, before, after);
    CopyKeepsAnswers(s, before, c, after);
  }

  lemma CopyKeepsAnswers(s: State, before: seq<Command>, c: Command, after: seq<Command>)
    requires Run(s, before + [c]) == Run(s, before)
    ensures forall j: nat | |before| <= j < |before + after| ::
              Answer(s, before + [c] + after, j + 1) == Answer(s, before + after, j)
  {
    assert |before + [c]| == |before| + 1;
    forall j: nat | |before| <= j < |before + after|
      ensures Answer(s, before + [c] + after, j + 1) == Answer(s, before + after, j)
    {
      SameAnswer(s, before + [c], before, after, j - |before|);
    }
  }

  lemma AnswerAfter(s: State, a: seq<Command>, after: seq<Command>, i: nat)
    requires i < |after|
    ensures Answer(s, a + after, |a| + i) == Step(Run(Run(s, a), after[..i]), after[i]).1
  {
    RunSplits(s, a, after[..i]);
    assert (a + after)[..|a| + i] == a + after[..i];
  }

  /** Behind logs that lead to one state, an entry answers the same. */
  lemma SameAnswer(s: State, a: seq<Command>, b: seq<Command>, after: seq<Command>, i: nat)
    requires Run(s, a) == Run(s, b) && i < |after|
    ensures Answer(s, a + after, |a| + i) == Answer(s, b + after, |b| + i)
  {
    AnswerAfter(s, a, after, i);
    AnswerAfter(s, b, after, i);
  }

  // ---------- What the log itself says ----------

  /** The entry at `j` changed its key: a fresh put, or a fresh cas that was answered as swapped. */
  ghost predicate Wrote(kv: map<string, string>, log: seq<Command>, j: nat)
    requires j < |log|
  {
    Fresh(log, j) && (log[j].kind.Put? || (log[j].kind.Cas? && Answer(State(kv, map[]), log, j).swapped == Some(true)))
  }

  /** The value of the last entry before `i` that changed the key, or the initial one. */
  ghost function LastWritten(kv: map<string, string>, log: seq<Command>, i: nat, key: string): Option<string>
    requires i <= |log|
  {
    if i == 0 then Lookup(kv, key)
    else if log[i - 1].key == key && Wrote(kv, log, i - 1) then Some(log[i - 1].value)
    else LastWritten(kv, log, i - 1, key)
  }

  /** What a fresh entry should answer when its key holds `v`, said of each kind on its own. */
  ghost predicate AnswersFrom(c: Command, v: Option<string>, out: Outcome) {
    && out.error == None
    && (c.kind.Get? ==> out.value == v && out.swapped == None)
    && (c.kind.Put? ==> out.value == Some(c.value) && out.swapped == None)
    && (c.kind.Cas? ==>
          && (out.swapped == Some(true) <==> v == c.expected) && (out.swapped == Some(false) <==> v != c.expected)
          && out.value == if v == c.expected then Some(c.value) else v)
  }

  lemma FreshAnswers(kv: map<string, string>, log: seq<Command>, i: nat)
    requires i < |log| && Fresh(log, i) && forall c <- log :: Supported(c)
    ensures AnswersFrom(log[i], Lookup(Run(State(kv, map[]), log[..i]).values, log[i].key), Answer(State(kv, map[]), log, i))
  {
    FreshMeansAbsentOrNewer(kv, log, i);
  }

  lemma OneMoreEntry(kv: map<string, string>, log: seq<Command>, i: nat, key: string)
    requires i < |log| && forall c <- log :: Supported(c)
    ensures Lookup(Run(State(kv, map[]), log[..i + 1]).values, key) ==
            if log[i].key == key && Wrote(kv, log, i) then Some(log[i].value)
            else Lookup(Run(State(kv, map[]), log[..i]).values, key)
  {
    assert log[..i + 1][..i] == log[..i];
    FreshMeansAbsentOrNewer(kv, log, i);
  }

  /** The store after any log holds, for every key, what the last entry that changed it wrote. */
  lemma {:induction false} StoreHoldsLastWritten(kv: map<string, string>, log: seq<Command>, i: nat, key: string)
    requires i <= |log| && forall c <- log :: Supported(c)
    ensures Lookup(Run(State(kv, map[]), log[..i]).values, key) == LastWritten(kv, log, i, key)
  {
    if i > 0 {
      StoreHoldsLastWritten(kv, log, i - 1, key);
      OneMoreEntry(kv, log, i - 1, key);
    }
  }

  /**
  The log law. A fresh get answers what was last written to its key; a fresh cas answers swapped
  if and only if that equals its expected value, and leaves its own value then and the old one
  otherwise; a fresh put leaves its own.
  */
  lemma LogLaw(kv: map<string, string>, log: seq<Command>, i: nat)
    requires i < |log| && Fresh(log, i) && forall c <- log :: Supported(c)
    ensures AnswersFrom(log[i], LastWritten(kv, log, i, log[i].key), Answer(State(kv, map[]), log, i))
    ensures LastWritten(kv, log, i + 1, log[i].key) == Answer(State(kv, map[]), log, i).value
  {
    FreshAnswers(kv, log, i);
    StoreHoldsLastWritten(kv, log, i, log[i].key);
    LeavesItsAnswer(kv, log, i, LastWritten(kv, log, i, log[i].key), Answer(State(kv, map[]), log, i));
  }

  lemma LeavesItsAnswer(kv: map<string, string>, log: seq<Command>, i: nat, v: Option<string>, out: Outcome)
    requires i < |log| && Fresh(log, i) && Supported(log[i])
    requires v == LastWritten(kv, log, i, log[i].key) && out == Answer(State(kv, map[]), log, i)
    requires AnswersFrom(log[i], v, out)
    ensures LastWritten(kv, log, i + 1, log[i].key) == out.value
  {
  }

  /**
  The other entries, by the log alone: superseded by a later sequence of the client, an entry is
  stale; otherwise it repeats the identity of the client's newest entry, and answers what that
  one answered if it is the same command and a conflict if it is not.
  */
  lemma RepeatLaw(kv: map<string, string>, log: seq<Command>, i: nat, j: nat)
    requires j < i < |log| && Fresh(log, j) && log[j].client == log[i].client && log[i].sequence <= log[j].sequence
    requires forall k | j < k < i :: log[k].client == log[j].client ==> log[k].sequence <= log[j].sequence
    requires forall c <- log :: Supported(c)
    ensures Answer(State(kv, map[]), log, i) ==
            if log[i].sequence < log[j].sequence then Failure("stale_sequence")
            else if log[i] == log[j] then Answer(State(kv, map[]), log, j)
            else Failure("identity_conflict")
  {
    SessionStays(kv, log, j, i);
  }

  /** From a fresh entry on, its client's session stays as it left it until a newer one. */
  lemma {:induction false} SessionStays(kv: map<string, string>, log: seq<Command>, j: nat, i: nat)
    requires j < i <= |log| && Fresh(log, j) && forall c <- log :: Supported(c)
    requires forall k | j < k < i :: log[k].client == log[j].client ==> log[k].sequence <= log[j].sequence
    ensures Lookup(Run(State(kv, map[]), log[..i]).sessions, log[j].client) ==
            Some(Session(log[j].sequence, log[j], Answer(State(kv, map[]), log, j)))
  {
    assert log[..i][..i - 1] == log[..i - 1];
    if i == j + 1 {
      FreshMeansAbsentOrNewer(kv, log, j);
    } else {
      SessionStays(kv, log, j, i - 1);
    }
  }

  /** A command of an unknown kind never changes the state, and is refused unless its client is past it. */
  lemma UnsupportedLaw(s: State, log: seq<Command>, c: Command)
    requires !Supported(c)
    ensures Run(s, log + [c]) == Run(s, log)
    ensures var sessions := Run(s, log).sessions;
            c.client !in sessions || sessions[c.client].sequence < c.sequence ==>
              Answer(s, log + [c], |log|) == Failure("invalid_command")
  {
    assert (log + [c])[..|log|] == log;
  }
}
