/** Replacing several stretches of a sequence at once, and doing it one splice at a time. */
module Splices {
  import Sorting

  /** Replace `s[start..end]` by `text`. */
  datatype Cut<T> = Cut(start: nat, end: nat, text: seq<T>)

  predicate Apart<T>(a: Cut<T>, b: Cut<T>) { a.end <= b.start || b.end <= a.start }

  /** The cuts lie within the first `n` positions. */
  predicate Within<T>(n: nat, cuts: seq<Cut<T>>) {
    forall i :: 0 <= i < |cuts| ==> cuts[i].start <= cuts[i].end <= n
  }

  /** What the scan over neighbours establishes. */
  predicate NeighboursApart<T>(cuts: seq<Cut<T>>) {
    forall i :: 0 <= i < |cuts| - 1 ==> cuts[i].end <= cuts[i + 1].start
  }

  predicate Ordered<T>(cuts: seq<Cut<T>>) {
    forall i, j :: 0 <= i < j < |cuts| ==> cuts[i].end <= cuts[j].start
  }

  ghost predicate PairwiseApart<T>(cuts: seq<Cut<T>>) {
    forall i, j :: 0 <= i < j < |cuts| ==> Apart(cuts[i], cuts[j])
  }

  predicate SortedByStart<T>(cuts: seq<Cut<T>>) {
    forall i, j :: 0 <= i < j < |cuts| ==> cuts[i].start <= cuts[j].start
  }

  /** For cuts in the order of their starts it is enough to compare neighbours. */
  lemma {:induction false} NeighboursSuffice<T>(n: nat, cuts: seq<Cut<T>>)
    requires Within(n, cuts)
    ensures NeighboursApart(cuts) <==> Ordered(cuts)
  {
    if NeighboursApart(cuts) {
      forall i, j | 0 <= i < j < |cuts| ensures cuts[i].end <= cuts[j].start { Reaches(n, cuts, i, j); }
    }
  }

  lemma {:induction false} Reaches<T>(n: nat, cuts: seq<Cut<T>>, i: nat, j: nat)
    requires Within(n, cuts) && NeighboursApart(cuts) && i < j < |cuts|
    ensures cuts[i].end <= cuts[j].start
    decreases j
  {
    if i + 1 < j { Reaches(n, cuts, i, j - 1); }
  }

  /** The stretches between the cuts kept, each cut replaced by its text: no intermediate text. */
  function Replaced<T>(s: seq<T>, from: nat, cuts: seq<Cut<T>>): seq<T>
    requires Within(|s|, cuts) && Ordered(cuts)
    requires from <= |s| && (cuts != [] ==> from <= cuts[0].start)
    decreases cuts
  {
    if cuts == [] then s[from..]
    else s[from..cuts[0].start] + cuts[0].text + Replaced(s, cuts[0].end, cuts[1..])
  }

  function Spliced<T>(s: seq<T>, c: Cut<T>): seq<T>
    requires c.start <= c.end <= |s|
  {
    s[..c.start] + c.text + s[c.end..]
  }

  /** Later cuts leave what precedes them where it was. */
  lemma {:induction false} KeepsFront<T>(s: seq<T>, cuts: seq<Cut<T>>, k: nat)
    requires Within(|s|, cuts) && Ordered(cuts) && k <= |s| && (cuts != [] ==> k <= cuts[0].start)
    ensures Replaced(s, 0, cuts) == s[..k] + Replaced(s, k, cuts)
  {
    if cuts == [] {
      assert s[0..] == s[..k] + s[k..];
    } else {
      assert s[0..cuts[0].start] == s[..k] + s[k..cuts[0].start];
    }
  }

  /** Splicing the front cut into a text whose later cuts are done already. */
  lemma {:induction false} OneMore<T>(s: seq<T>, cuts: seq<Cut<T>>)
    requires Within(|s|, cuts) && Ordered(cuts) && cuts != []
    ensures var done := Replaced(s, 0, cuts[1..]);
      cuts[0].end <= |done| && Spliced(done, cuts[0]) == Replaced(s, 0, cuts)
  {
    var c := cuts[0];
    var done := Replaced(s, 0, cuts[1..]);
    KeepsFront(s, cuts[1..], c.end);
    assert done[..c.start] == s[..c.start];
    assert done[c.end..] == Replaced(s, c.end, cuts[1..]);
  }

  /** From the last cut to the first: the same text as replacing all cuts at once. */
  method BackToFront<T>(s: seq<T>, cuts: seq<Cut<T>>) returns (r: seq<T>)
    requires Within(|s|, cuts) && Ordered(cuts)
    ensures r == Replaced(s, 0, cuts)
  {
    r := s;
    var k := |cuts|;
    while k > 0
      invariant 0 <= k <= |cuts| && r == Replaced(s, 0, cuts[k..])
    {
      k := k - 1;
      OneMore(s, cuts[k..]);
      assert cuts[k..][1..] == cuts[k + 1..];
      r := Spliced(r, cuts[k]);
    }
    assert cuts[0..] == cuts;
  }

  /** Cuts inside `s[lo..hi]` leave everything before and after it as it was. */
  lemma {:induction false} StaysInside<T>(s: seq<T>, from: nat, cuts: seq<Cut<T>>, lo: nat, hi: nat)
    requires Within(|s|, cuts) && Ordered(cuts) && lo <= hi <= |s| && from <= hi
    requires forall i :: 0 <= i < |cuts| ==> lo <= cuts[i].start && cuts[i].end <= hi
    requires cuts != [] ==> from <= cuts[0].start
    ensures var r := Replaced(s, from, cuts);
      && |s| - hi <= |r| && r[|r| - (|s| - hi)..] == s[hi..]
      && (from <= lo ==> lo - from <= |r| - (|s| - hi) && r[..lo - from] == s[from..lo])
    decreases cuts
  {
    var r := Replaced(s, from, cuts);
    if cuts == [] {
      assert r[|r| - (|s| - hi)..] == s[hi..];
    } else {
      var rest := Replaced(s, cuts[0].end, cuts[1..]);
      StaysInside(s, cuts[0].end, cuts[1..], lo, hi);
      var head := s[from..cuts[0].start] + cuts[0].text;
      assert r == head + rest;
      assert r[|r| - (|s| - hi)..] == rest[|rest| - (|s| - hi)..];
    }
  }

  // ---- the order in which the cuts are given ------------------------------------------------

  predicate NonEmpty<T>(cuts: seq<Cut<T>>) { forall i :: 0 <= i < |cuts| ==> cuts[i].start < cuts[i].end }

  /** Sorted non-empty cuts are ordered exactly when no two of them overlap. */
  lemma OrderedIsApart<T>(cuts: seq<Cut<T>>)
    requires NonEmpty(cuts) && SortedByStart(cuts)
    ensures Ordered(cuts) <==> PairwiseApart(cuts)
  {
    if PairwiseApart(cuts) {
      forall i, j | 0 <= i < j < |cuts| ensures cuts[i].end <= cuts[j].start {
        assert Apart(cuts[i], cuts[j]);
      }
    }
  }

  lemma ApartInAnyOrder<T(!new)>(a: seq<Cut<T>>, b: seq<Cut<T>>)
    requires multiset(a) == multiset(b) && PairwiseApart(a)
    ensures PairwiseApart(b)
  {
    Sorting.PairwiseInAnyOrder(a, b, Apart);
    forall i, j | 0 <= i < j < |b| ensures Apart(b[i], b[j]) {
      assert Sorting.Pairwise(b, Apart);
    }
  }

  /** Two ordered listings of the same non-empty cuts are the same listing. */
  lemma OneOrder<T>(a: seq<Cut<T>>, b: seq<Cut<T>>)
    requires multiset(a) == multiset(b) && NonEmpty(a) && NonEmpty(b) && Ordered(a) && Ordered(b)
    ensures a == b
  {
    Sorting.OneListing(a, b, Start);
  }

  function Start<T>(c: Cut<T>): int { c.start }
}
