/** The sort every retrieval stage ends with: score descending, then id ascending.
    Ids compare by a total order, and no two items of one list share an id. */
module Ordering {
  import opened Memories

  type Key = (real, Id)

  predicate Ahead(a: Key, b: Key) {
    a.0 > b.0 || (a.0 == b.0 && a.1 < b.1)
  }

  predicate InOrder<T>(key: T -> Key, s: seq<T>) {
    forall i, j :: 0 <= i < j < |s| ==> Ahead(key(s[i]), key(s[j]))
  }

  predicate DistinctIds<T>(key: T -> Key, s: seq<T>) {
    forall i, j :: 0 <= i < j < |s| ==> key(s[i]).1 != key(s[j]).1
  }

  function Insert<T>(key: T -> Key, x: T, s: seq<T>): seq<T> {
    if s == [] then [x]
    else if Ahead(key(x), key(s[0])) then [x] + s
    else [s[0]] + Insert(key, x, s[1..])
  }

  /** A stable sort. */
  function Sort<T>(key: T -> Key, s: seq<T>): seq<T> {
    if s == [] then [] else Insert(key, s[|s| - 1], Sort(key, s[..|s| - 1]))
  }

  lemma {:induction false} InsertPermutes<T>(key: T -> Key, x: T, s: seq<T>)
    ensures multiset(Insert(key, x, s)) == multiset(s) + multiset{x}
  {
    if s != [] {
      InsertPermutes(key, x, s[1..]);
      assert s == [s[0]] + s[1..];
    }
  }

  lemma {:induction false} SortPermutes<T>(key: T -> Key, s: seq<T>)
    ensures multiset(Sort(key, s)) == multiset(s) && |Sort(key, s)| == |s|
  {
    if s != [] {
      var init := s[..|s| - 1];
      SortPermutes(key, init);
      InsertPermutes(key, s[|s| - 1], Sort(key, init));
      assert s == init + [s[|s| - 1]];
    }
    assert |multiset(Sort(key, s))| == |Sort(key, s)| && |multiset(s)| == |s|;
  }

  lemma SortKeeps<T>(key: T -> Key, s: seq<T>)
    ensures forall x :: x in Sort(key, s) <==> x in s
  {
    SortPermutes(key, s);
    forall x ensures x in Sort(key, s) <==> x in s {
      assert x in multiset(s) <==> x in multiset(Sort(key, s));
    }
  }

  lemma {:induction false} InsertOrders<T>(key: T -> Key, x: T, s: seq<T>)
    requires InOrder(key, s) && forall y :: y in s ==> key(y).1 != key(x).1
    ensures InOrder(key, Insert(key, x, s))
  {
    if s != [] && !Ahead(key(x), key(s[0])) {
      var rest := Insert(key, x, s[1..]);
      InsertOrders(key, x, s[1..]);
      InsertPermutes(key, x, s[1..]);
      forall k | 0 <= k < |rest| ensures Ahead(key(s[0]), key(rest[k])) {
        assert rest[k] in multiset(rest);
        assert s[0] in s;
        if rest[k] in s[1..] {
          var j :| 0 <= j < |s[1..]| && s[1..][j] == rest[k];
          assert s[j + 1] == rest[k];
        }
      }
    }
  }

  lemma {:induction false} SortOrders<T>(key: T -> Key, s: seq<T>)
    requires DistinctIds(key, s)
    ensures InOrder(key, Sort(key, s))
  {
    if s != [] {
      var init, x := s[..|s| - 1], s[|s| - 1];
      SortOrders(key, init);
      SortPermutes(key, init);
      forall y | y in Sort(key, init) ensures key(y).1 != key(x).1 {
        assert y in multiset(init);
      }
      InsertOrders(key, x, Sort(key, init));
    }
  }

  lemma HeadLeads<T>(key: T -> Key, s: seq<T>, x: T)
    requires InOrder(key, s) && x in s
    ensures x == s[0] || Ahead(key(s[0]), key(x))
  {
    var i :| 0 <= i < |s| && s[i] == x;
  }

  lemma SameHead<T>(key: T -> Key, a: seq<T>, b: seq<T>)
    requires InOrder(key, a) && InOrder(key, b) && multiset(a) == multiset(b) && a != [] && b != []
    ensures a[0] == b[0]
  {
    assert a[0] in multiset(b) && b[0] in multiset(a);
    HeadLeads(key, a, b[0]);
    HeadLeads(key, b, a[0]);
  }

  lemma RestOf<T>(s: seq<T>)
    requires s != []
    ensures multiset(s[1..]) == multiset(s) - multiset{s[0]}
  {
    assert s == [s[0]] + s[1..];
  }

  /** A list of distinct ids has one order. */
  lemma {:induction false} OneOrder<T>(key: T -> Key, a: seq<T>, b: seq<T>)
    requires InOrder(key, a) && InOrder(key, b) && multiset(a) == multiset(b)
    ensures a == b
  {
    assert |multiset(a)| == |a| && |multiset(b)| == |b|;
    if a != [] {
      SameHead(key, a, b);
      RestOf(a);
      RestOf(b);
      OneOrder(key, a[1..], b[1..]);
      assert a == [a[0]] + a[1..] && b == [b[0]] + b[1..];
    }
  }

  lemma SortIgnoresInputOrder<T>(key: T -> Key, a: seq<T>, b: seq<T>)
    requires DistinctIds(key, a) && DistinctIds(key, b) && multiset(a) == multiset(b)
    ensures Sort(key, a) == Sort(key, b)
  {
    SortPermutes(key, a);
    SortPermutes(key, b);
    SortOrders(key, a);
    SortOrders(key, b);
    OneOrder(key, Sort(key, a), Sort(key, b));
  }

  /** Distinctness survives reordering. */
  lemma DistinctReordered<T>(key: T -> Key, a: seq<T>, b: seq<T>)
    requires DistinctIds(key, a) && multiset(a) == multiset(b)
    ensures DistinctIds(key, b)
  {
    forall i, j | 0 <= i < j < |b| ensures key(b[i]).1 != key(b[j]).1 {
      if key(b[i]).1 == key(b[j]).1 {
        assert b[i] in multiset(a) && b[j] in multiset(a);
        var k :| 0 <= k < |a| && a[k] == b[i];
        var l :| 0 <= l < |a| && a[l] == b[j];
        assert k == l;
        TwiceOver(b, i, j);
        OnceOnly(key, a, k);
        assert false;
      }
    }
  }

  lemma TwiceOver<T>(s: seq<T>, i: nat, j: nat)
    requires i < j < |s| && s[i] == s[j]
    ensures multiset(s)[s[i]] >= 2
  {
    assert s == s[..i] + [s[i]] + s[i + 1..j] + [s[j]] + s[j + 1..];
  }

  lemma OnceOnly<T>(key: T -> Key, s: seq<T>, k: nat)
    requires DistinctIds(key, s) && k < |s|
    ensures multiset(s)[s[k]] == 1
  {
    assert s == s[..k] + [s[k]] + s[k + 1..];
    assert s[k] !in s[..k] && s[k] !in s[k + 1..];
  }

  function Take<T>(s: seq<T>, n: nat): seq<T> {
    if |s| <= n then s else s[..n]
  }

  /** The first `n` of a sorted list come ahead of everything cut off. */
  lemma PrefixLeads<T>(key: T -> Key, s: seq<T>, n: nat, x: T)
    requires DistinctIds(key, s) && x in s
    ensures var kept := Take(Sort(key, s), n);
            && InOrder(key, kept) && multiset(kept) <= multiset(s)
            && (x !in kept ==> |kept| == n && forall y :: y in kept ==> Ahead(key(y), key(x)))
  {
    var sorted := Sort(key, s);
    SortKeeps(key, s);
    SortOrders(key, s);
    CutPermutes(key, s, n);
    if x !in Take(sorted, n) {
      var j :| 0 <= j < |sorted| && sorted[j] == x;
      assert n <= j;
    }
  }

  /** And the prefix itself is in order, with distinct ids. */
  lemma PrefixInOrder<T>(key: T -> Key, s: seq<T>, n: nat)
    requires DistinctIds(key, s)
    ensures InOrder(key, Take(Sort(key, s), n)) && DistinctIds(key, Take(Sort(key, s), n))
  {
    SortPermutes(key, s);
    SortOrders(key, s);
    DistinctReordered(key, s, Sort(key, s));
  }

  lemma CutPermutes<T>(key: T -> Key, s: seq<T>, n: nat)
    ensures multiset(Take(Sort(key, s), n)) <= multiset(s)
  {
    var sorted := Sort(key, s);
    SortPermutes(key, s);
    assert sorted == Take(sorted, n) + sorted[|Take(sorted, n)|..];
  }

  // ---- reordering -----------------------------------------------------------------------

  function Map<T, U>(f: T -> U, s: seq<T>): seq<U> {
    seq(|s|, i requires 0 <= i < |s| => f(s[i]))
  }

  function Without<T>(s: seq<T>, i: nat): seq<T>
    requires i < |s|
  {
    s[..i] + s[i + 1..]
  }

  lemma WithoutOne<T>(s: seq<T>, i: nat)
    requires i < |s|
    ensures multiset(Without(s, i)) == multiset(s) - multiset{s[i]}
  {
    assert s == s[..i] + [s[i]] + s[i + 1..];
  }

  lemma MapSplits<T, U>(f: T -> U, s: seq<T>, i: nat)
    requires i < |s|
    ensures multiset(Map(f, s)) == multiset(Map(f, Without(s, i))) + multiset{f(s[i])}
  {
    assert Map(f, Without(s, i)) == Without(Map(f, s), i);
    WithoutOne(Map(f, s), i);
    assert Map(f, s)[i] in multiset(Map(f, s));
  }

  lemma {:induction false} MapReordered<T, U>(f: T -> U, a: seq<T>, b: seq<T>)
    requires multiset(a) == multiset(b)
    ensures multiset(Map(f, a)) == multiset(Map(f, b))
  {
    assert |multiset(a)| == |a| && |multiset(b)| == |b|;
    if a != [] {
      assert a[0] in multiset(b);
      var i :| 0 <= i < |b| && b[i] == a[0];
      WithoutOne(a, 0);
      WithoutOne(b, i);
      MapReordered(f, Without(a, 0), Without(b, i));
      MapSplits(f, a, 0);
      MapSplits(f, b, i);
    }
  }
}
