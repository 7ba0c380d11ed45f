/** Sequence combinators shared by the other modules. */
module Basics {

  datatype Option<+T> = None | Some(value: T)

  function Min(a: int, b: int): int {
    if a < b then a else b
  }

  function Max(a: int, b: int): int {
    if a < b then b else a
  }

  function Last<T>(s: seq<T>): T
    requires s != []
  {
    s[|s| - 1]
  }

  function Front<T>(s: seq<T>): seq<T>
    requires s != []
  {
    s[..|s| - 1]
  }

  lemma FrontOfPrefix<T>(s: seq<T>, i: nat)
    requires i < |s|
    ensures Front(s[..i + 1]) == s[..i] && Last(s[..i + 1]) == s[i]
  {
  }

  /** Elements of s that satisfy p, in order. */
  function Filter<T>(s: seq<T>, p: T -> bool): (r: seq<T>)
    ensures |r| <= |s|
  {
    if s == [] then [] else
    Filter(Front(s), p) + if p(Last(s)) then [Last(s)] else []
  }

  lemma {:induction false} FilterIn<T>(s: seq<T>, p: T -> bool, x: T)
    ensures x in Filter(s, p) <==> x in s && p(x)
  {
    if s != [] {
      FilterIn(Front(s), p, x);
      assert s == Front(s) + [Last(s)];
    }
  }

  /** at lists, in increasing order, exactly the positions below n at which p holds. */
  ghost predicate Lists(at: seq<nat>, n: nat, p: nat -> bool) {
    && (forall k :: 0 <= k < |at| ==> at[k] < n && p(at[k]))
    && (forall j, k :: 0 <= j < k < |at| ==> at[j] < at[k])
    && (forall i :: 0 <= i < n && p(i) ==> i in at)
  }

  /** One more position. */
  lemma ListsOneMore(at: seq<nat>, n: nat, p: nat -> bool, q: nat -> bool)
    requires Lists(at, n, p) && forall i :: 0 <= i < n ==> p(i) == q(i)
    ensures Lists(if q(n) then at + [n] else at, n + 1, q)
  {
    forall i | 0 <= i < n + 1 && q(i)
      ensures i in if q(n) then at + [n] else at
    {
      assert i < n ==> i in at;
    }
  }

  lemma FilterOneMore<T>(s: seq<T>, p: T -> bool)
    requires s != []
    ensures Filter(s, p) == if p(Last(s)) then Filter(Front(s), p) + [Last(s)] else Filter(Front(s), p)
  {
  }

  ghost function Holding<T>(s: seq<T>, p: T -> bool): nat -> bool {
    i => 0 <= i < |s| && p(s[i])
  }

  /** Element k of r is the one at position at[k] of s. */
  ghost predicate Drawn<T>(s: seq<T>, at: seq<nat>, r: seq<T>) {
    |r| == |at| && forall k :: 0 <= k < |at| ==> at[k] < |s| && r[k] == s[at[k]]
  }

  lemma DrawnOneMore<T>(s: seq<T>, at: seq<nat>, r: seq<T>)
    requires s != [] && Drawn(Front(s), at, r)
    ensures Drawn(s, at, r) && Drawn(s, at + [|s| - 1], r + [Last(s)])
  {
  }

  /** The filtered elements stand at exactly the positions satisfying p, in order. */
  lemma {:induction false} FilterPositions<T>(s: seq<T>, p: T -> bool) returns (at: seq<nat>)
    ensures Lists(at, |s|, Holding(s, p)) && Drawn(s, at, Filter(s, p))
    decreases |s|
  {
    at := [];
    if s != [] {
      var f, n := Front(s), |s| - 1;
      var before := FilterPositions(f, p);
      assert forall i :: 0 <= i < n ==> Holding(f, p)(i) == Holding(s, p)(i);
      assert Holding(s, p)(n) == p(Last(s));
      FilterOneMore(s, p);
      hide Filter, Holding, Lists, Drawn;
      ListsOneMore(before, n, Holding(f, p), Holding(s, p));
      DrawnOneMore(s, before, Filter(f, p));
      at := if p(Last(s)) then before + [n] else before;
    }
  }

  /** The number of elements satisfying p. */
  function Count<T>(s: seq<T>, p: T -> bool): nat {
    if s == [] then 0 else Count(Front(s), p) + if p(Last(s)) then 1 else 0
  }

  lemma {:induction false} CountConcat<T>(a: seq<T>, b: seq<T>, p: T -> bool)
    ensures Count(a + b, p) == Count(a, p) + Count(b, p)
  {
    if b == [] {
      assert a + b == a;
    } else {
      assert Front(a + b) == a + Front(b);
      CountConcat(a, Front(b), p);
    }
  }

  ghost function PositionsOf<T>(s: seq<T>, p: T -> bool): set<nat> {
    set i | 0 <= i < |s| && p(s[i])
  }

  /** The count is the number of positions. */
  lemma {:induction false} CountSize<T>(s: seq<T>, p: T -> bool)
    ensures Count(s, p) == |PositionsOf(s, p)|
    decreases |s|
  {
    if s == [] {
      assert PositionsOf(s, p) == {};
    } else {
      CountSize(Front(s), p);
      assert PositionsOf(s, p) == PositionsOf(Front(s), p) + if p(Last(s)) then {|s| - 1} else {};
    }
  }

  lemma {:induction false} CountZero<T>(s: seq<T>, p: T -> bool)
    requires forall x :: x in s ==> !p(x)
    ensures Count(s, p) == 0
  {
    if s != [] {
      assert Last(s) in s;
      CountZero(Front(s), p);
    }
  }

  // ---------------------------------------------------------- first wins

  /** Item i is the first one carrying its key among the items that satisfy ok. */
  ghost predicate FirstOk<T, K>(s: seq<T>, key: T -> K, ok: T -> bool, i: nat)
    requires i < |s|
  {
    ok(s[i]) && forall j :: 0 <= j < i && ok(s[j]) ==> key(s[j]) != key(s[i])
  }

  /** Some item satisfying ok carries key k. */
  ghost predicate Taken<T, K>(s: seq<T>, key: T -> K, ok: T -> bool, k: K) {
    exists i :: 0 <= i < |s| && ok(s[i]) && key(s[i]) == k
  }

  /** The indices of the items FirstOk picks, in order. */
  ghost function FirstIndices<T, K>(s: seq<T>, key: T -> K, ok: T -> bool): seq<nat> {
    if s == [] then [] else
    FirstIndices(Front(s), key, ok) +
    if FirstOk(s, key, ok, |s| - 1) then [|s| - 1] else []
  }

  /** The items FirstOk picks, in order. */
  ghost function Keep<T, K>(s: seq<T>, key: T -> K, ok: T -> bool): seq<T> {
    if s == [] then [] else
    Keep(Front(s), key, ok) +
    if FirstOk(s, key, ok, |s| - 1) then [Last(s)] else []
  }

  /** Keep is exactly the sub-sequence of s at the FirstOk positions. */
  lemma {:induction false} KeepExact<T, K>(s: seq<T>, key: T -> K, ok: T -> bool)
    ensures var at := FirstIndices(s, key, ok);
            && |Keep(s, key, ok)| == |at|
            && (forall n :: 0 <= n < |at| ==> at[n] < |s| && FirstOk(s, key, ok, at[n]) && Keep(s, key, ok)[n] == s[at[n]])
            && (forall m, n :: 0 <= m < n < |at| ==> at[m] < at[n])
            && (forall i :: 0 <= i < |s| && FirstOk(s, key, ok, i) ==> i in at)
  {
    if s != [] {
      var f := Front(s);
      KeepExact(f, key, ok);
      FirstOkFront(s, key, ok);
      KeepOneMore(s, key, ok);
      hide Keep, FirstIndices, FirstOk;
    }
  }

  lemma FirstOkFront<T, K>(s: seq<T>, key: T -> K, ok: T -> bool)
    requires s != []
    ensures forall i :: 0 <= i < |s| - 1 ==> Front(s)[i] == s[i] && (FirstOk(Front(s), key, ok, i) <==> FirstOk(s, key, ok, i))
  {
    assert forall i :: 0 <= i < |s| - 1 ==> Front(s)[i] == s[i];
  }

  lemma KeepOneMore<T, K>(s: seq<T>, key: T -> K, ok: T -> bool)
    requires s != []
    ensures var n, f := |s| - 1, Front(s);
            if FirstOk(s, key, ok, n) then
              FirstIndices(s, key, ok) == FirstIndices(f, key, ok) + [n] && Keep(s, key, ok) == Keep(f, key, ok) + [s[n]]
            else
              FirstIndices(s, key, ok) == FirstIndices(f, key, ok) && Keep(s, key, ok) == Keep(f, key, ok)
  {
    hide FirstOk;
  }

  /** Every kept item passes, kept keys are distinct, and the kept keys are the taken keys. */
  lemma {:induction false} KeepKeys<T, K>(s: seq<T>, key: T -> K, ok: T -> bool)
    ensures forall x :: x in Keep(s, key, ok) ==> x in s && ok(x)
    ensures forall m, n :: 0 <= m < n < |Keep(s, key, ok)| ==> key(Keep(s, key, ok)[m]) != key(Keep(s, key, ok)[n])
    ensures forall i :: 0 <= i < |s| && ok(s[i]) ==> exists n :: 0 <= n < |Keep(s, key, ok)| && key(Keep(s, key, ok)[n]) == key(s[i])
  {
    if s != [] {
      var f, k := Front(s), Keep(Front(s), key, ok);
      var out := Keep(s, key, ok);
      KeepKeys(f, key, ok);
      assert s == f + [Last(s)];
      forall i | 0 <= i < |s| && ok(s[i])
        ensures exists n :: 0 <= n < |out| && key(out[n]) == key(s[i])
      {
        if i < |f| {
          assert f[i] == s[i];
          var n :| 0 <= n < |k| && key(k[n]) == key(f[i]);
          assert out[n] == k[n];
        } else if FirstOk(s, key, ok, i) {
          assert out[|out| - 1] == s[i];
        } else {
          var j :| 0 <= j < i && ok(s[j]) && key(s[j]) == key(s[i]);
          assert f[j] == s[j];
          var n :| 0 <= n < |k| && key(k[n]) == key(f[j]);
          assert out[n] == k[n];
        }
      }
      forall m, n | 0 <= m < n < |out|
        ensures key(out[m]) != key(out[n])
      {
        if n == |k| {
          assert out[m] in f;
          var j :| 0 <= j < |f| && f[j] == out[m];
          assert s[j] == f[j];
        }
      }
    }
  }

  // ------------------------------------------------------------- flat map

  function FlatMap<T, U>(s: seq<T>, f: T -> seq<U>): seq<U> {
    if s == [] then [] else f(s[0]) + FlatMap(s[1..], f)
  }

  lemma {:induction false} FlatMapIn<T, U>(s: seq<T>, f: T -> seq<U>, u: U)
    ensures u in FlatMap(s, f) <==> exists x :: x in s && u in f(x)
  {
    if s != [] {
      FlatMapIn(s[1..], f, u);
      assert s == [s[0]] + s[1..];
    }
  }

  /** The concatenation around element n. */
  lemma {:induction false} FlatMapAround<T, U>(s: seq<T>, f: T -> seq<U>, n: nat)
    requires n < |s|
    ensures FlatMap(s, f) == FlatMap(s[..n], f) + (f(s[n]) + FlatMap(s[n + 1..], f))
  {
    if n == 0 {
      assert s[..0] == [];
    } else {
      FlatMapAround(s[1..], f, n - 1);
      assert s[..n][1..] == s[1..][..n - 1] && s[1..][n..] == s[n + 1..];
    }
  }
}
