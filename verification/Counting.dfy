/** How many elements of a sequence satisfy a predicate. */
module Counting {
  ghost function Count<T>(s: seq<T>, p: T -> bool): nat {
    if s == [] then 0 else Count(s[..|s| - 1], p) + if p(s[|s| - 1]) then 1 else 0
  }

  lemma {:induction false} CountAppends<T>(a: seq<T>, b: seq<T>, p: T -> bool)
    ensures Count(a + b, p) == Count(a, p) + Count(b, p)
    decreases |b|
  {
    if b == [] { assert a + b == a; } else {
      CountAppends(a, b[..|b| - 1], p);
      assert (a + b)[..|a + b| - 1] == a + b[..|b| - 1];
    }
  }

  lemma CountOne<T>(x: T, p: T -> bool)
    ensures Count([x], p) == if p(x) then 1 else 0
  {
    assert [x][..0] == [];
  }

  lemma CountAdd<T>(s: seq<T>, x: T, p: T -> bool)
    ensures Count(s + [x], p) == Count(s, p) + if p(x) then 1 else 0
  {
    CountAppends(s, [x], p);
    CountOne(x, p);
  }

  lemma CountWithout<T>(s: seq<T>, i: nat, p: T -> bool)
    requires i < |s|
    ensures Count(s[..i] + s[i + 1..], p) == Count(s, p) - if p(s[i]) then 1 else 0
  {
    hide Count;
    var a, x, b := s[..i], s[i], s[i + 1..];
    assert s == a + [x] + b;
    CountAppends(a + [x], b, p);
    CountAdd(a, x, p);
    CountAppends(a, b, p);
  }

  lemma CountTail<T>(s: seq<T>, p: T -> bool)
    requires s != []
    ensures Count(s[1..], p) == Count(s, p) - if p(s[0]) then 1 else 0
  {
    CountWithout(s, 0, p);
    assert s[..0] + s[1..] == s[1..];
  }

  lemma CountMember<T>(s: seq<T>, i: nat, p: T -> bool)
    requires i < |s| && p(s[i])
    ensures Count(s, p) > 0
  {
    CountWithout(s, i, p);
  }

  lemma {:induction false} CountNone<T>(s: seq<T>, p: T -> bool)
    requires forall i :: 0 <= i < |s| ==> !p(s[i])
    ensures Count(s, p) == 0
  {
    if s != [] { CountNone(s[..|s| - 1], p); }
  }

  /** Over several sequences. */
  ghost function CountAll<T>(s: seq<seq<T>>, p: T -> bool): nat {
    if s == [] then 0 else CountAll(s[..|s| - 1], p) + Count(s[|s| - 1], p)
  }

  /** Replacing one sequence changes the total by that sequence's change. */
  lemma {:induction false} CountAllUpdate<T>(s: seq<seq<T>>, u: nat, x: seq<T>, p: T -> bool)
    requires u < |s|
    ensures CountAll(s[u := x], p) == CountAll(s, p) - Count(s[u], p) + Count(x, p)
    ensures CountAll(s, p) >= Count(s[u], p)
  {
    var init := s[..|s| - 1];
    if u < |s| - 1 {
      CountAllUpdate(init, u, x, p);
      assert s[u := x][..|s| - 1] == init[u := x];
    } else {
      assert s[u := x][..|s| - 1] == init;
    }
  }

  lemma {:induction false} CountAllNone<T>(s: seq<seq<T>>, p: T -> bool)
    requires forall u, i :: 0 <= u < |s| && 0 <= i < |s[u]| ==> !p(s[u][i])
    ensures CountAll(s, p) == 0
  {
    if s != [] {
      var init := s[..|s| - 1];
      assert forall u, i :: 0 <= u < |init| && 0 <= i < |init[u]| ==> !p(init[u][i]);
      CountAllNone(init, p);
      CountNone(s[|s| - 1], p);
    }
  }

  lemma {:induction false} CountWitness<T>(s: seq<T>, p: T -> bool)
    requires Count(s, p) > 0
    ensures exists i :: 0 <= i < |s| && p(s[i])
  {
    if !p(s[|s| - 1]) {
      CountWitness(s[..|s| - 1], p);
      var i :| 0 <= i < |s| - 1 && p(s[..|s| - 1][i]);
      assert p(s[i]);
    }
  }
}
