/** Byte order on strings and the in-place insertion sort that fixes participant order. */
module SortedKeys {

  /** Strict lexicographic order. */
  predicate Less(a: string, b: string) {
    b != "" && (a == "" || a[0] < b[0] || (a[0] == b[0] && Less(a[1..], b[1..])))
  }

  predicate AtMost(a: string, b: string) {
    !Less(b, a)
  }

  lemma SameHead(a: string, b: string, k: nat)
    requires 0 < k <= |a| && k <= |b| && a[..k] == b[..k]
    ensures a[0] == b[0]
  {
    assert a[..k][0] == b[..k][0];
  }

  /** a comes before b: they differ first where b is greater, or a is a proper prefix of b. */
  lemma {:induction false} LessExact(a: string, b: string)
    ensures Less(a, b) <==>
            exists k: nat :: k < |b| && k <= |a| && a[..k] == b[..k] && (k == |a| || a[k] < b[k])
  {
    if a != "" && b != "" && a[0] == b[0] {
      LessExact(a[1..], b[1..]);
      if k: nat :| k < |b[1..]| && k <= |a[1..]| && a[1..][..k] == b[1..][..k] && (k == |a[1..]| || a[1..][k] < b[1..][k]) {
        assert a[..k + 1] == [a[0]] + a[1..][..k] && b[..k + 1] == [b[0]] + b[1..][..k];
      }
      if k: nat :| k < |b| && k <= |a| && a[..k] == b[..k] && (k == |a| || a[k] < b[k]) {
        assert a[1..][..k - 1] == a[..k][1..] && b[1..][..k - 1] == b[..k][1..];
      }
    } else if b != "" {
      assert a[..0] == b[..0];
      forall k: nat | 0 < k < |b| && k <= |a| && a[..k] == b[..k]
        ensures a[0] == b[0]
      {
        SameHead(a, b, k);
      }
    }
  }

  lemma {:induction false} LessTotal(a: string, b: string)
    ensures a == b || Less(a, b) || Less(b, a)
    ensures !(Less(a, b) && Less(b, a))
    ensures !Less(a, a)
  {
    if a != "" {
      LessTotal(a[1..], a[1..]);
      if b != "" && a[0] == b[0] {
        LessTotal(a[1..], b[1..]);
        assert a == [a[0]] + a[1..] && b == [b[0]] + b[1..];
      }
    }
  }

  lemma {:induction false} AtMostTransitive(a: string, b: string, c: string)
    requires AtMost(a, b) && AtMost(b, c)
    ensures AtMost(a, c)
  {
    if a != "" && b != "" && c != "" && a[0] == b[0] && b[0] == c[0] {
      AtMostTransitive(a[1..], b[1..], c[1..]);
    }
  }

  ghost predicate Ascending(s: seq<string>) {
    forall i, j :: 0 <= i < j < |s| ==> Less(s[i], s[j])
  }

  ghost predicate IsLeast(m: string, keys: set<string>) {
    m in keys && forall k :: k in keys ==> k == m || Less(m, k)
  }

  /** The least key exists. */
  lemma {:induction false} HasLeast(keys: set<string>)
    requires keys != {}
    ensures exists m :: IsLeast(m, keys)
  {
    var x :| x in keys;
    if keys == {x} {
      assert IsLeast(x, keys);
    } else {
      var rest := keys - {x};
      assert keys == rest + {x};
      HasLeast(rest);
      var m :| IsLeast(m, rest);
      LessTotal(x, m);
      if Less(x, m) {
        forall k | k in rest && k != m
          ensures Less(x, k)
        {
          LessTotal(m, k);
          LessTotal(x, m);
          AtMostTransitive(x, m, k);
          LessTotal(x, k);
          LessTotal(k, k);
        }
        assert IsLeast(x, keys);
      } else {
        assert IsLeast(m, keys);
      }
    }
  }

  ghost function Least(keys: set<string>): (m: string)
    requires keys != {}
    ensures IsLeast(m, keys)
  {
    HasLeast(keys);
    var m :| IsLeast(m, keys);
    m
  }

  /** The keys of a set in ascending order. */
  ghost function Sorted(keys: set<string>): (s: seq<string>)
    ensures Ascending(s) && (forall k :: k in s <==> k in keys)
  {
    if keys == {} then [] else [Least(keys)] + Sorted(keys - {Least(keys)})
  }

  /** An ascending listing of a set is unique. */
  lemma {:induction false} SortedUnique(s: seq<string>, keys: set<string>)
    requires Ascending(s) && forall k :: k in s <==> k in keys
    ensures s == Sorted(keys)
  {
    if s == [] {
      assert keys == {};
    } else {
      assert s[0] in keys;
      var m := Least(keys);
      var i :| 0 <= i < |s| && s[i] == m;
      LessTotal(s[0], m);
      assert i == 0;
      var rest := s[1..];
      forall k | k in rest
        ensures k in keys - {m}
      {
        var j :| 0 <= j < |rest| && rest[j] == k;
        assert s[j + 1] == k && Less(s[0], s[j + 1]);
        LessTotal(s[0], k);
      }
      forall k | k in keys - {m}
        ensures k in rest
      {
        assert k in s;
        var j :| 0 <= j < |s| && s[j] == k;
        assert rest[j - 1] == k;
      }
      SortedUnique(rest, keys - {m});
      assert s == [m] + rest;
    }
  }

  /** The insertion sort: each element is swapped down past its larger predecessors. */
  method InsertionSort(a: array<string>)
    modifies a
    ensures multiset(a[..]) == multiset(old(a[..]))
    ensures forall p, q :: 0 <= p < q < a.Length ==> AtMost(a[p], a[q])
  {
    var i := 1;
    while i < a.Length
      invariant 1 <= i
      invariant forall p, q :: 0 <= p < q < i && q < a.Length ==> AtMost(a[p], a[q])
      invariant multiset(a[..]) == multiset(old(a[..]))
    {
      var j := i;
      while j > 0 && Less(a[j], a[j - 1])
        invariant 0 <= j <= i
        invariant forall p, q :: 0 <= p < q <= i && q != j ==> AtMost(a[p], a[q])
        invariant multiset(a[..]) == multiset(old(a[..]))
      {
        LessTotal(a[j], a[j - 1]);
        a[j], a[j - 1] := a[j - 1], a[j];
        j := j - 1;
      }
      forall p | 0 <= p < j
        ensures AtMost(a[p], a[j])
      {
        if p < j - 1 { AtMostTransitive(a[p], a[j - 1], a[j]); }
      }
      i := i + 1;
    }
  }

  lemma RepeatCounts(s: seq<string>, p: nat, q: nat)
    requires p < q < |s| && s[p] == s[q]
    ensures multiset(s)[s[p]] >= 2
  {
    assert s == s[..q] + [s[q]] + s[q + 1..];
    assert s[p] == s[..q][p];
    assert s[p] in multiset(s[..q]);
  }

  lemma AscendingFromSorted(s: seq<string>, keys: set<string>)
    requires multiset(s) == multiset(keys)
    requires forall p, q :: 0 <= p < q < |s| ==> AtMost(s[p], s[q])
    ensures s == Sorted(keys)
  {
    forall k
      ensures k in s <==> k in keys
    {
      assert k in multiset(s) <==> k in multiset(keys);
    }
    forall p, q | 0 <= p < q < |s|
      ensures Less(s[p], s[q])
    {
      LessTotal(s[p], s[q]);
      if s[p] == s[q] {
        RepeatCounts(s, p, q);
        assert false;
      }
    }
    SortedUnique(s, keys);
  }

  /** sortedKeys: collect the keys in map order (any order), then sort in place. */
  method KeysInOrder(m: map<string, string>) returns (keys: seq<string>)
    ensures keys == Sorted(m.Keys)
  {
    var rest := m.Keys;
    keys := [];
    while rest != {}
      invariant rest <= m.Keys
      invariant multiset(keys) == multiset(m.Keys - rest)
      decreases |rest|
    {
      var k :| k in rest;
      assert m.Keys - (rest - {k}) == (m.Keys - rest) + {k};
      keys := keys + [k];
      rest := rest - {k};
    }
    assert m.Keys - rest == m.Keys;
    var a := new string[|keys|](i requires 0 <= i < |keys| => keys[i]);
    assert a[..] == keys;
    InsertionSort(a);
    keys := a[..];
    AscendingFromSorted(keys, m.Keys);
  }
}
