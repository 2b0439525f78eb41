/** A stable sort, standing for the standard library's `sort_by` and `sort_by_key`. */
module Sorting {
  ghost predicate TotalOrder<T(!new)>(le: (T, T) -> bool) {
    && (forall a, b :: le(a, b) || le(b, a))
    && (forall a, b, c :: le(a, b) && le(b, c) ==> le(a, c))
  }

  ghost predicate SortedBy<T>(s: seq<T>, le: (T, T) -> bool) {
    forall i, j :: 0 <= i < j < |s| ==> le(s[i], s[j])
  }

  function Insert<T>(x: T, s: seq<T>, le: (T, T) -> bool): seq<T> {
    if s == [] then [x]
    else if le(x, s[0]) then [x] + s
    else [s[0]] + Insert(x, s[1..], le)
  }

  function Sort<T>(s: seq<T>, le: (T, T) -> bool): seq<T> {
    if s == [] then [] else Insert(s[0], Sort(s[1..], le), le)
  }

  lemma MultisetCons<T>(x: T, s: seq<T>)
    ensures multiset([x] + s) == multiset(s) + multiset{x}
  {
  }

  lemma {:induction false} InsertMultiset<T>(x: T, s: seq<T>, le: (T, T) -> bool)
    ensures multiset(Insert(x, s, le)) == multiset(s) + multiset{x}
  {
    if s == [] {
    } else if le(x, s[0]) {
      MultisetCons(x, s);
    } else {
      InsertMultiset(x, s[1..], le);
      MultisetCons(s[0], Insert(x, s[1..], le));
      MultisetCons(s[0], s[1..]);
      assert s == [s[0]] + s[1..];
    }
  }

  lemma PrependSorted<T>(x: T, s: seq<T>, le: (T, T) -> bool)
    requires SortedBy(s, le) && forall y :: y in s ==> le(x, y)
    ensures SortedBy([x] + s, le)
  {
  }

  lemma {:induction false} InsertSorted<T(!new)>(x: T, s: seq<T>, le: (T, T) -> bool)
    requires TotalOrder(le) && SortedBy(s, le)
    ensures SortedBy(Insert(x, s, le), le)
  {
    if s == [] {
    } else {
      assert forall y :: y in s[1..] ==> le(s[0], y);
      if le(x, s[0]) {
        PrependSorted(x, s, le);
      } else {
        var rest := Insert(x, s[1..], le);
        InsertSorted(x, s[1..], le);
        InsertMultiset(x, s[1..], le);
        forall y | y in rest
          ensures le(s[0], y)
        {
          assert y in multiset(rest);
        }
        PrependSorted(s[0], rest, le);
      }
    }
  }

  lemma {:induction false} SortSorts<T(!new)>(s: seq<T>, le: (T, T) -> bool)
    requires TotalOrder(le)
    ensures multiset(Sort(s, le)) == multiset(s)
    ensures |Sort(s, le)| == |s|
    ensures SortedBy(Sort(s, le), le)
  {
    if s == [] {
    } else {
      SortSorts(s[1..], le);
      InsertSorted(s[0], Sort(s[1..], le), le);
      InsertMultiset(s[0], Sort(s[1..], le), le);
      assert s == [s[0]] + s[1..];
      assert |multiset(Sort(s, le))| == |multiset(s)|;
    }
  }

  ghost predicate Antisymmetric<T>(s: seq<T>, le: (T, T) -> bool) {
    forall a, b :: a in s && b in s && le(a, b) && le(b, a) ==> a == b
  }

  lemma SameHead<T>(s: seq<T>, t: seq<T>, le: (T, T) -> bool)
    requires |s| == |t| > 0 && s[0] in t && t[0] in s
    requires SortedBy(s, le) && SortedBy(t, le) && Antisymmetric(s, le)
    ensures s[0] == t[0]
  {
  }

  lemma TailSorted<T>(s: seq<T>, le: (T, T) -> bool)
    requires s != [] && SortedBy(s, le) && Antisymmetric(s, le)
    ensures SortedBy(s[1..], le) && Antisymmetric(s[1..], le)
    ensures multiset(s[1..]) == multiset(s) - multiset{s[0]}
  {
    assert s == [s[0]] + s[1..];
  }

  lemma SameMembers<T>(s: seq<T>, t: seq<T>, le: (T, T) -> bool)
    requires multiset(s) == multiset(t) && Antisymmetric(s, le)
    ensures |s| == |t| && Antisymmetric(t, le)
    ensures s != [] ==> s[0] in t && t[0] in s
  {
    assert |multiset(s)| == |multiset(t)|;
    assert forall x :: x in t ==> x in multiset(t);
    assert s != [] ==> s[0] in multiset(s) && t[0] in multiset(t);
  }

  /** Where no two different elements are equivalent, the sorted arrangement of a multiset is unique. */
  lemma {:induction false} SortedUnique<T>(s: seq<T>, t: seq<T>, le: (T, T) -> bool)
    requires multiset(s) == multiset(t)
    requires SortedBy(s, le) && SortedBy(t, le) && Antisymmetric(s, le)
    ensures s == t
    decreases |s|
  {
    SameMembers(s, t, le);
    if s == [] {
    } else {
      SameHead(s, t, le);
      TailSorted(s, le);
      TailSorted(t, le);
      SortedUnique(s[1..], t[1..], le);
      assert s == [s[0]] + s[1..] && t == [t[0]] + t[1..];
    }
  }
}

/** Finite sets and maps as sequences, in an order the program does not choose. */
module Enumerations {
  import opened Vectors

  ghost predicate Distinct<K>(ks: seq<K>) {
    forall i, j :: 0 <= i < j < |ks| ==> ks[i] != ks[j]
  }

  ghost predicate Enumerates<K>(ks: seq<K>, s: set<K>) {
    Distinct(ks) && (forall k :: k in ks ==> k in s) && (forall k :: k in s ==> k in ks)
  }

  /** The order in which a hash map hands out its keys: any order at all. */
  method Enumerate<K(==)>(s: set<K>) returns (ks: seq<K>)
    ensures Enumerates(ks, s)
  {
    ks := [];
    var rest := s;
    while rest != {}
      invariant Distinct(ks) && rest <= s
      invariant forall k :: k in ks ==> k in s - rest
      invariant forall k :: k in s - rest ==> k in ks
    {
      var k :| k in rest;
      assert k !in ks;
      ks := ks + [k];
      rest := rest - {k};
    }
  }

  ghost function SomeOrder<K>(s: set<K>): (ks: seq<K>)
    ensures Enumerates(ks, s)
  {
    if s == {} then [] else
      var k :| k in s;
      [k] + SomeOrder(s - {k})
  }

  ghost function Members<K>(ks: seq<K>): set<K> {
    set k | k in ks
  }

  lemma {:induction false} DistinctLength<K>(ks: seq<K>)
    ensures |Members(ks)| <= |ks|
    ensures |Members(ks)| == |ks| <==> Distinct(ks)
  {
    if ks == [] {
    } else {
      var rest := ks[1..];
      DistinctLength(rest);
      assert Members(ks) == Members(rest) + {ks[0]};
      if ks[0] in rest {
        assert Members(ks) == Members(rest);
        assert !Distinct(ks);
      } else {
        assert Distinct(ks) <==> Distinct(rest) by {
          assert ks == [ks[0]] + rest;
        }
      }
    }
  }

  lemma EnumerationLength<K>(ks: seq<K>, s: set<K>)
    requires Enumerates(ks, s)
    ensures |ks| == |s|
  {
    DistinctLength(ks);
    assert s == Members(ks);
  }

  function Values<K>(m: map<K, real>, ks: seq<K>): seq<real>
    requires forall k :: k in ks ==> k in m
  {
    seq(|ks|, i requires 0 <= i < |ks| => m[ks[i]])
  }

  /** The sum of all values of a map. */
  ghost function Total<K>(m: map<K, real>): real {
    Sum(Values(m, SomeOrder(m.Keys)))
  }

  lemma WithoutMembers<K>(ks: seq<K>, j: nat)
    requires j < |ks| && Distinct(ks)
    ensures Distinct(Without(ks, j))
    ensures forall k :: k in Without(ks, j) <==> k in ks && k != ks[j]
  {
    var rest := Without(ks, j);
    forall k | k in ks && k != ks[j]
      ensures k in rest
    {
      var i :| 0 <= i < |ks| && ks[i] == k;
      assert rest[if i < j then i else i - 1] == k;
    }
  }

  lemma {:induction false} SumOverEnumerations<K>(m: map<K, real>, ks: seq<K>, ls: seq<K>)
    requires Distinct(ks) && Distinct(ls)
    requires forall k :: k in ks <==> k in ls
    requires forall k :: k in ks ==> k in m
    ensures Sum(Values(m, ks)) == Sum(Values(m, ls))
    decreases |ks|
  {
    if ks == [] {
      assert forall i :: 0 <= i < |ls| ==> ls[i] in ks;
    } else {
      assert ks[0] in ls;
      var j :| 0 <= j < |ls| && ls[j] == ks[0];
      WithoutMembers(ks, 0);
      WithoutMembers(ls, j);
      SumOverEnumerations(m, Without(ks, 0), Without(ls, j));
      SumWithout(Values(m, ks), 0);
      SumWithout(Values(m, ls), j);
      assert Without(Values(m, ks), 0) == Values(m, Without(ks, 0));
      assert Without(Values(m, ls), j) == Values(m, Without(ls, j));
    }
  }

  /** The total of a map can be computed in any order. */
  lemma TotalInAnyOrder<K>(m: map<K, real>, ks: seq<K>)
    requires Enumerates(ks, m.Keys)
    ensures Total(m) == Sum(Values(m, ks))
  {
    SumOverEnumerations(m, ks, SomeOrder(m.Keys));
  }
}
