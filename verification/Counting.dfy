/** Counting the elements of a sequence that satisfy a condition, and integer division. */
module Counting {

  ghost function Count<T>(s: seq<T>, p: T -> bool): (c: nat)
    ensures c <= |s|
  {
    if s == [] then 0 else Count(s[..|s| - 1], p) + Unit(p(s[|s| - 1]))
  }

  ghost function Unit(b: bool): nat {
    if b then 1 else 0
  }

  lemma CountOneMore<T>(s: seq<T>, x: T, p: T -> bool)
    ensures Count(s + [x], p) == Count(s, p) + Unit(p(x))
  {
    assert (s + [x])[..|s|] == s;
  }

  lemma {:induction false} CountSplits<T>(a: seq<T>, b: seq<T>, p: T -> bool)
    ensures Count(a + b, p) == Count(a, p) + Count(b, p)
  {
    if b == [] {
      assert a + b == a;
    } else {
      assert (a + b)[..|a + b| - 1] == a + b[..|b| - 1];
      CountSplits(a, b[..|b| - 1], p);
    }
  }

  lemma {:induction false} CountGrows<T>(s: seq<T>, p: T -> bool, q: T -> bool)
    requires forall i | 0 <= i < |s| :: p(s[i]) ==> q(s[i])
    ensures Count(s, p) <= Count(s, q)
  {
    if s != [] {
      CountGrows(s[..|s| - 1], p, q);
    }
  }

  lemma {:induction false} CountNone<T>(s: seq<T>, p: T -> bool)
    requires forall i | 0 <= i < |s| :: !p(s[i])
    ensures Count(s, p) == 0
  {
    if s != [] {
      CountNone(s[..|s| - 1], p);
    }
  }

  lemma {:induction false} CountAll<T>(s: seq<T>, p: T -> bool)
    requires forall i | 0 <= i < |s| :: p(s[i])
    ensures Count(s, p) == |s|
  {
    if s != [] {
      CountAll(s[..|s| - 1], p);
    }
  }

  lemma {:induction false} CountSome<T>(s: seq<T>, p: T -> bool, i: nat)
    requires i < |s| && p(s[i])
    ensures Count(s, p) > 0
  {
    if i < |s| - 1 {
      CountSome(s[..|s| - 1], p, i);
    }
  }

  /** A condition that only one place can meet is met at most once. */
  lemma {:induction false} CountAtOnePlace<T>(s: seq<T>, p: T -> bool, i: nat)
    requires forall j | 0 <= j < |s| && j != i :: !p(s[j])
    ensures Count(s, p) == if i < |s| && p(s[i]) then 1 else 0
  {
    if s != [] {
      CountAtOnePlace(s[..|s| - 1], p, i);
    }
  }

  /** Any member of a set. */
  method Pick<T>(s: set<T>) returns (x: T)
    requires s != {}
    ensures x in s
  {
    x :| x in s;
  }

  // ---------- Division ----------

  lemma MulRises(a: nat, b: nat, w: nat)
    requires a <= b
    ensures a * w <= b * w
  {
  }

  lemma DivisionIsUnique(a: nat, w: nat, q: nat, r: nat)
    requires w >= 1 && a == q * w + r && r < w
    ensures q == a / w
  {
    var d := a / w;
    assert a == d * w + a % w;
    if q < d {
      MulRises(q + 1, d, w);
    } else if d < q {
      MulRises(d + 1, q, w);
    }
  }
}
