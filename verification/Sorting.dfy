/** Python's stable `sorted` by an integer key. */
module Sorting {
  predicate SortedBy<E>(items: seq<E>, key: E -> int) {
    forall i, j :: 0 <= i < j < |items| ==> key(items[i]) <= key(items[j])
  }

  /** Insert before the first item with a larger key. */
  function Insert<E>(items: seq<E>, x: E, key: E -> int): seq<E> {
    if items == [] || key(x) < key(items[0]) then [x] + items else [items[0]] + Insert(items[1..], x, key)
  }

  function Sort<E>(items: seq<E>, key: E -> int): seq<E> {
    if items == [] then [] else Insert(Sort(items[..|items| - 1], key), items[|items| - 1], key)
  }

  lemma InsertFirst<E>(items: seq<E>, x: E, key: E -> int)
    requires items == [] || key(x) < key(items[0])
    ensures Insert(items, x, key) == [x] + items
  {
  }

  lemma InsertLater<E>(first: E, rest: seq<E>, x: E, key: E -> int)
    requires key(first) <= key(x)
    ensures Insert([first] + rest, x, key) == [first] + Insert(rest, x, key)
  {
    assert ([first] + rest)[1..] == rest;
  }

  lemma SortAppend<E>(front: seq<E>, x: E, key: E -> int)
    ensures Sort(front + [x], key) == Insert(Sort(front, key), x, key)
  {
    assert (front + [x])[..|front|] == front;
  }

  lemma {:induction false} InsertPermutes<E>(items: seq<E>, x: E, key: E -> int)
    ensures multiset(Insert(items, x, key)) == multiset(items) + multiset{x}
  {
    if items != [] && key(x) >= key(items[0]) {
      InsertPermutes(items[1..], x, key);
      assert items == [items[0]] + items[1..];
    }
  }

  lemma {:induction false} InsertSorts<E>(items: seq<E>, x: E, key: E -> int)
    requires SortedBy(items, key)
    ensures SortedBy(Insert(items, x, key), key)
    ensures Insert(items, x, key)[0] == if items == [] || key(x) < key(items[0]) then x else items[0]
  {
    if items != [] && key(x) >= key(items[0]) {
      InsertSorts(items[1..], x, key);
      var rest := Insert(items[1..], x, key);
      assert key(items[0]) <= key(rest[0]);
    }
  }

  lemma {:induction false} SortSorts<E>(items: seq<E>, key: E -> int)
    ensures SortedBy(Sort(items, key), key)
  {
    if items != [] {
      SortSorts(items[..|items| - 1], key);
      InsertSorts(Sort(items[..|items| - 1], key), items[|items| - 1], key);
    }
  }

  /** Sorting gives the same items in another order. */
  lemma {:induction false} SortPermutes<E>(items: seq<E>, key: E -> int)
    ensures multiset(Sort(items, key)) == multiset(items)
    ensures |Sort(items, key)| == |items|
  {
    if items != [] {
      var front, last := items[..|items| - 1], items[|items| - 1];
      SortPermutes(front, key);
      InsertPermutes(Sort(front, key), last, key);
      assert items == front + [last];
      assert |Sort(items, key)| == |multiset(Sort(items, key))| == |multiset(items)|;
    }
  }

  /** A listing that is sorted already stays as it is. */
  lemma {:induction false} InsertsLast<E>(items: seq<E>, x: E, key: E -> int)
    requires SortedBy(items + [x], key)
    ensures Insert(items, x, key) == items + [x]
  {
    if items != [] {
      assert (items + [x])[0] == items[0] && (items + [x])[|items|] == x;
      assert (items + [x])[1..] == items[1..] + [x];
      InsertsLast(items[1..], x, key);
    }
  }

  lemma {:induction false} SortedStays<E>(items: seq<E>, key: E -> int)
    requires SortedBy(items, key)
    ensures Sort(items, key) == items
  {
    if items != [] {
      var front, last := items[..|items| - 1], items[|items| - 1];
      SortedStays(front, key);
      assert items == front + [last];
      InsertsLast(front, last, key);
    }
  }

  function Map<E, F>(items: seq<E>, f: E -> F): (r: seq<F>)
    ensures |r| == |items| && forall i :: 0 <= i < |items| ==> r[i] == f(items[i])
  {
    seq(|items|, i requires 0 <= i < |items| => f(items[i]))
  }

  function Without<E>(s: seq<E>, i: nat): (r: seq<E>)
    requires i < |s|
    ensures |r| == |s| - 1
  {
    s[..i] + s[i + 1..]
  }

  lemma TakenOut<E>(s: seq<E>, i: nat)
    requires i < |s|
    ensures multiset(Without(s, i)) == multiset(s) - multiset{s[i]}
    ensures multiset(s) == multiset(Without(s, i)) + multiset{s[i]}
  {
    assert s == s[..i] + [s[i]] + s[i + 1..];
  }

  lemma MapTakenOut<E, F>(s: seq<E>, i: nat, f: E -> F)
    requires i < |s|
    ensures multiset(Map(s, f)) == multiset(Map(Without(s, i), f)) + multiset{f(s[i])}
  {
    TakenOut(Map(s, f), i);
    assert Without(Map(s, f), i) == Map(Without(s, i), f);
  }

  /** The images of one collection of items are one collection, whatever the order. */
  lemma {:induction false} MapMultiset<E, F>(a: seq<E>, b: seq<E>, f: E -> F)
    requires multiset(a) == multiset(b)
    ensures multiset(Map(a, f)) == multiset(Map(b, f))
    decreases |a|
  {
    hide Without;
    if a == [] {
      assert |b| == |multiset(b)| == 0;
    } else {
      assert a[0] in multiset(b);
      var i :| 0 <= i < |b| && b[i] == a[0];
      TakenOut(a, 0);
      TakenOut(b, i);
      MapTakenOut(a, 0, f);
      MapTakenOut(b, i, f);
      MapMultiset(Without(a, 0), Without(b, i), f);
    }
  }

  predicate KeysAgree<E, F>(items: seq<E>, f: E -> F, keyE: E -> int, keyF: F -> int) {
    forall i :: 0 <= i < |items| ==> keyE(items[i]) == keyF(f(items[i]))
  }

  lemma {:induction false} MapInsert<E, F>(items: seq<E>, x: E, f: E -> F, keyE: E -> int, keyF: F -> int)
    requires KeysAgree(items, f, keyE, keyF) && keyE(x) == keyF(f(x))
    ensures Map(Insert(items, x, keyE), f) == Insert(Map(items, f), f(x), keyF)
  {
    if items != [] {
      var rest := items[1..];
      assert keyE(items[0]) == keyF(f(items[0]));
      if keyE(x) >= keyE(items[0]) {
        assert KeysAgree(rest, f, keyE, keyF);
        MapInsert(rest, x, f, keyE, keyF);
        assert Map(items, f) == [f(items[0])] + Map(rest, f);
        InsertLater(f(items[0]), Map(rest, f), f(x), keyF);
      }
    }
  }

  lemma SortKeepsAgreement<E, F>(items: seq<E>, f: E -> F, keyE: E -> int, keyF: F -> int)
    requires KeysAgree(items, f, keyE, keyF)
    ensures KeysAgree(Sort(items, keyE), f, keyE, keyF)
  {
    SortPermutes(items, keyE);
    var r := Sort(items, keyE);
    forall i | 0 <= i < |r| ensures keyE(r[i]) == keyF(f(r[i])) {
      assert r[i] in multiset(r) && r[i] in items;
    }
  }

  /** Sorting the items and then taking their images is sorting the images. */
  lemma {:induction false} MapSort<E, F>(items: seq<E>, f: E -> F, keyE: E -> int, keyF: F -> int)
    requires KeysAgree(items, f, keyE, keyF)
    ensures Map(Sort(items, keyE), f) == Sort(Map(items, f), keyF)
  {
    if items != [] {
      var front, last := items[..|items| - 1], items[|items| - 1];
      assert KeysAgree(front, f, keyE, keyF);
      MapSort(front, f, keyE, keyF);
      SortKeepsAgreement(front, f, keyE, keyF);
      MapInsert(Sort(front, keyE), last, f, keyE, keyF);
      assert Map(items, f) == Map(front, f) + [f(last)];
      SortAppend(Map(front, f), f(last), keyF);
    }
  }

  // ---- listings of the same items ----------------------------------------------------------

  lemma Twice<T>(s: seq<T>, i: nat, j: nat)
    requires i < j < |s| && s[i] == s[j]
    ensures multiset(s)[s[i]] >= 2
  {
    assert s == s[..j] + [s[j]] + s[j + 1..];
    assert s[i] in s[..j];
  }

  lemma {:induction false} TwicePlaces<T>(s: seq<T>, x: T) returns (i: nat, j: nat)
    requires multiset(s)[x] >= 2
    ensures i < j < |s| && s[i] == x && s[j] == x
  {
    j := |s| - 1;
    assert s == s[..j] + [s[j]];
    if s[j] == x {
      assert x in multiset(s[..j]);
      i :| 0 <= i < j && s[i] == x;
    } else {
      i, j := TwicePlaces(s[..j], x);
    }
  }

  ghost predicate Pairwise<E>(items: seq<E>, rel: (E, E) -> bool) {
    forall i, j :: 0 <= i < j < |items| ==> rel(items[i], items[j])
  }

  /** Whether any two items are related does not depend on the order they are listed in. */
  lemma PairwiseInAnyOrder<E(!new)>(a: seq<E>, b: seq<E>, rel: (E, E) -> bool)
    requires multiset(a) == multiset(b) && Pairwise(a, rel)
    requires forall x, y :: rel(x, y) ==> rel(y, x)
    ensures Pairwise(b, rel)
  {
    forall i, j | 0 <= i < j < |b| ensures rel(b[i], b[j]) {
      if b[i] == b[j] {
        Twice(b, i, j);
        var k, l := TwicePlaces(a, b[i]);
        assert rel(a[k], a[l]);
      } else {
        assert b[i] in multiset(a) && b[j] in multiset(a);
        var k :| 0 <= k < |a| && a[k] == b[i];
        var l :| 0 <= l < |a| && a[l] == b[j];
        assert k != l;
        assert if k < l then rel(a[k], a[l]) else rel(a[l], a[k]);
      }
    }
  }

  predicate StrictlyBy<E>(items: seq<E>, key: E -> int) {
    forall i, j :: 0 <= i < j < |items| ==> key(items[i]) < key(items[j])
  }

  lemma SameFirst<E>(a: seq<E>, b: seq<E>, key: E -> int)
    requires multiset(a) == multiset(b) && StrictlyBy(a, key) && StrictlyBy(b, key)
    requires a != [] && b != []
    ensures a[0] == b[0]
  {
    assert a[0] in multiset(b) && b[0] in multiset(a);
    var i :| 0 <= i < |b| && b[i] == a[0];
    var j :| 0 <= j < |a| && a[j] == b[0];
    if i > 0 && j > 0 { assert false; }
  }

  lemma StrictRest<E>(a: seq<E>, key: E -> int)
    requires a != [] && StrictlyBy(a, key)
    ensures StrictlyBy(Without(a, 0), key) && a == [a[0]] + Without(a, 0)
  {
    assert Without(a, 0) == a[1..];
  }

  /** Two strictly sorted listings of the same items are the same listing. */
  lemma {:induction false} OneListing<E>(a: seq<E>, b: seq<E>, key: E -> int)
    requires multiset(a) == multiset(b) && StrictlyBy(a, key) && StrictlyBy(b, key)
    ensures a == b
    decreases |a|
  {
    hide Without, StrictlyBy;
    assert |a| == |multiset(a)| == |multiset(b)| == |b|;
    if a != [] {
      SameFirst(a, b, key);
      StrictRest(a, key);
      StrictRest(b, key);
      TakenOut(a, 0);
      TakenOut(b, 0);
      OneListing(Without(a, 0), Without(b, 0), key);
    }
  }
}
