/**
What it means for an order to explain a history, said without replaying it: every reply agrees
with what the last operation before it that changed its key left there.
*/
module Registers {
  import opened Kv
  import opened Linearizability

  /** The operation changed its key, by its own reply: a put, or a cas answered as swapped. */
  ghost predicate Changed(e: Event) {
    e.command.kind.Put? || (e.command.kind.Cas? && e.reply.result.Some? && e.reply.result.value.swapped == Some(true))
  }

  /** What the last operation before place `i` that changed the key left there. */
  ghost function Register(h: seq<Event>, order: seq<nat>, kv: map<string, string>, i: nat, key: string): Option<string>
    requires Within(h, order) && i <= |order|
  {
    if i == 0 then Lookup(kv, key)
    else
      var e := h[order[i - 1]];
      if e.command.key == key && Changed(e) then Some(e.command.value) else Register(h, order, kv, i - 1, key)
  }

  ghost predicate AgreesAt(h: seq<Event>, order: seq<nat>, kv: map<string, string>, i: nat)
    requires Within(h, order) && i < |order|
  {
    var e := h[order[i]];
    e.reply.result.Some? && AnswersFrom(e.command, Register(h, order, kv, i, e.command.key), e.reply.result.value)
  }

  lemma FirstAgrees(h: seq<Event>, order: seq<nat>, kv: map<string, string>)
    requires Within(h, order) && order != []
    ensures var e := h[order[0]];
            AgreesAt(h, order, kv, 0) <==> e.reply.result == Some(Plain(kv, e.command).1)
  {
    var e := h[order[0]];
    if AgreesAt(h, order, kv, 0) {
      assert e.reply.result.value == Plain(kv, e.command).1;
    }
  }

  lemma {:induction false} RegisterAfterFirst(h: seq<Event>, order: seq<nat>, kv: map<string, string>, i: nat, key: string)
    requires Within(h, order) && 1 <= i <= |order| && AgreesAt(h, order, kv, 0)
    ensures Register(h, order, kv, i, key) == Register(h, order[1..], Plain(kv, h[order[0]].command).0, i - 1, key)
  {
    var c := h[order[0]].command;
    FirstAgrees(h, order, kv);
    if i == 1 {
      PlainTouchesOneKey(kv, c);
    } else {
      RegisterAfterFirst(h, order, kv, i - 1, key);
      assert order[1..][i - 2] == order[i - 1];
    }
  }

  lemma AgreesAfterFirst(h: seq<Event>, order: seq<nat>, kv: map<string, string>, i: nat)
    requires Within(h, order) && 1 <= i < |order| && AgreesAt(h, order, kv, 0)
    ensures AgreesAt(h, order, kv, i) <==> AgreesAt(h, order[1..], Plain(kv, h[order[0]].command).0, i - 1)
  {
    assert order[1..][i - 1] == order[i];
    RegisterAfterFirst(h, order, kv, i, h[order[i]].command.key);
  }

  /** An order explains a history if and only if every reply agrees with the last change of its key. */
  lemma {:induction false} ExplainsMeans(h: seq<Event>, order: seq<nat>, kv: map<string, string>)
    requires Within(h, order)
    ensures Explains(h, order, kv) <==> forall i: nat | i < |order| :: AgreesAt(h, order, kv, i)
  {
    if order != [] {
      FirstAgrees(h, order, kv);
      var rest, after := order[1..], Plain(kv, h[order[0]].command).0;
      ExplainsMeans(h, rest, after);
      if AgreesAt(h, order, kv, 0) {
        forall i: nat | 1 <= i < |order| ensures AgreesAt(h, order, kv, i) <==> AgreesAt(h, rest, after, i - 1) {
          AgreesAfterFirst(h, order, kv, i);
        }
        if forall i: nat | i < |order| :: AgreesAt(h, order, kv, i) {
          forall i: nat | i < |rest| ensures AgreesAt(h, rest, after, i) {
            assert AgreesAt(h, order, kv, i + 1);
          }
        }
      }
    }
  }
}
