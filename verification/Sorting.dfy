/** The stable sort the router and the proxy table rely on: a loop that inserts each element behind
    everything that does not have to come after it. */
module Sorting {

  function Insert<T>(x: T, s: seq<T>, before: (T, T) -> bool): seq<T> {
    if s == [] || !before(x, s[|s| - 1]) then s + [x]
    else Insert(x, s[..|s| - 1], before) + [s[|s| - 1]]
  }

  function SortBy<T>(s: seq<T>, before: (T, T) -> bool): seq<T> {
    if s == [] then [] else Insert(s[|s| - 1], SortBy(s[..|s| - 1], before), before)
  }

  method Sort<T>(s: seq<T>, before: (T, T) -> bool) returns (r: seq<T>)
    ensures r == SortBy(s, before)
  {
    r := [];
    for i := 0 to |s|
      invariant r == SortBy(s[..i], before)
    {
      var x, k := s[i], |r|;
      assert r[..k] == r;
      while k > 0 && before(x, r[k - 1])
        invariant 0 <= k <= |r|
        invariant Insert(x, r, before) == Insert(x, r[..k], before) + r[k..]
      {
        assert r[..k][..k - 1] == r[..k - 1];
        assert Insert(x, r[..k - 1], before) + [r[k - 1]] + r[k..] == Insert(x, r[..k - 1], before) + r[k - 1..];
        k := k - 1;
      }
      assert s[..i + 1][..i] == s[..i];
      r := r[..k] + [x] + r[k..];
    }
    assert s[..|s|] == s;
  }

  /** A strict order in which incomparable elements are interchangeable. */
  ghost predicate StrictWeakOrder<T(!new)>(before: (T, T) -> bool) {
    && (forall x, y :: before(x, y) ==> !before(y, x))
    && (forall x, y, z :: !before(x, y) && !before(y, z) ==> !before(x, z))
  }

  ghost predicate Ordered<T>(s: seq<T>, before: (T, T) -> bool) {
    forall i, j :: 0 <= i < j < |s| ==> !before(s[j], s[i])
  }

  ghost predicate StrictlyOrdered<T>(s: seq<T>, before: (T, T) -> bool) {
    forall i, j :: 0 <= i < j < |s| ==> before(s[i], s[j])
  }

  lemma {:induction false} InsertKeepsElements<T>(x: T, s: seq<T>, before: (T, T) -> bool)
    ensures multiset(Insert(x, s, before)) == multiset(s) + multiset{x}
  {
    if s != [] && before(x, s[|s| - 1]) {
      InsertKeepsElements(x, s[..|s| - 1], before);
      assert s == s[..|s| - 1] + [s[|s| - 1]];
    }
  }

  /** Sorting permutes. */
  lemma {:induction false} SortPermutes<T>(s: seq<T>, before: (T, T) -> bool)
    ensures multiset(SortBy(s, before)) == multiset(s)
  {
    if s != [] {
      SortPermutes(s[..|s| - 1], before);
      InsertKeepsElements(s[|s| - 1], SortBy(s[..|s| - 1], before), before);
      assert s == s[..|s| - 1] + [s[|s| - 1]];
    }
  }

  lemma SameElements<T>(r: seq<T>, s: seq<T>)
    requires multiset(r) == multiset(s)
    ensures forall x :: x in r <==> x in s
  {
    forall x ensures x in r <==> x in s {
      assert x in r <==> x in multiset(r);
      assert x in s <==> x in multiset(s);
    }
  }

  lemma {:induction false} InsertOrdered<T(!new)>(x: T, s: seq<T>, before: (T, T) -> bool)
    requires StrictWeakOrder(before) && Ordered(s, before)
    ensures Ordered(Insert(x, s, before), before)
  {
    if s != [] {
      var front, last := s[..|s| - 1], s[|s| - 1];
      if before(x, last) {
        InsertOrdered(x, front, before);
        var r := Insert(x, front, before);
        InsertKeepsElements(x, front, before);
        forall i | 0 <= i < |r| ensures !before(last, r[i]) {
          assert r[i] in multiset(r);
          if r[i] != x { assert r[i] in front; }
        }
      } else {
        forall i | 0 <= i < |s| ensures !before(x, s[i]) {
          assert i < |s| - 1 ==> !before(last, s[i]);
        }
      }
    }
  }

  /** Sorting sorts. */
  lemma {:induction false} SortOrders<T(!new)>(s: seq<T>, before: (T, T) -> bool)
    requires StrictWeakOrder(before)
    ensures Ordered(SortBy(s, before), before)
  {
    if s != [] {
      SortOrders(s[..|s| - 1], before);
      InsertOrdered(s[|s| - 1], SortBy(s[..|s| - 1], before), before);
    }
  }

  lemma HasElement<T>(s: seq<T>)
    requires s != []
    ensures exists x :: x in s
  {
    assert s[0] in s;
  }

  /** When no two elements tie, the order of the result leaves no choice. */
  lemma {:induction false} OrderIsUnique<T(!new)>(r: seq<T>, s: seq<T>, before: (T, T) -> bool)
    requires StrictWeakOrder(before) && StrictlyOrdered(r, before) && StrictlyOrdered(s, before)
    requires forall x :: x in r <==> x in s
    ensures r == s
  {
    if r == [] {
      if s != [] { HasElement(s); }
    } else {
      assert r[0] in s;
      var j :| 0 <= j < |s| && s[j] == r[0];
      assert s[0] in r;
      var i :| 0 <= i < |r| && r[i] == s[0];
      assert i == 0 && j == 0;
      forall x ensures x in r[1..] <==> x in s[1..] {
        if x in r[1..] {
          assert x in r && x in s;
          var k :| 0 <= k < |r[1..]| && r[1..][k] == x;
          assert before(r[0], r[k + 1]);
        }
        if x in s[1..] {
          assert x in s && x in r;
          var k :| 0 <= k < |s[1..]| && s[1..][k] == x;
          assert before(s[0], s[k + 1]);
        }
      }
      OrderIsUnique(r[1..], s[1..], before);
      assert r == [r[0]] + r[1..] && s == [s[0]] + s[1..];
    }
  }

  // ----- the order on identifiers -----------------------------------------------------------------

  predicate LexLess(a: string, b: string) {
    if b == "" then false
    else if a == "" then true
    else a[0] < b[0] || (a[0] == b[0] && LexLess(a[1..], b[1..]))
  }

  lemma {:induction false} LexTotal(a: string, b: string)
    ensures !(LexLess(a, b) && LexLess(b, a))
    ensures LexLess(a, b) || LexLess(b, a) || a == b
    ensures !LexLess(a, a)
  {
    if a != "" {
      LexTotal(a[1..], a[1..]);
      if b != "" {
        LexTotal(a[1..], b[1..]);
        if a[0] == b[0] && a[1..] == b[1..] { assert a == [a[0]] + a[1..] && b == [b[0]] + b[1..]; }
      }
    }
  }

  lemma {:induction false} LexTransitive(a: string, b: string, c: string)
    requires LexLess(a, b) && LexLess(b, c)
    ensures LexLess(a, c)
  {
    if a != "" && a[0] == b[0] == c[0] { LexTransitive(a[1..], b[1..], c[1..]); }
  }

  /** The order is by the first difference; a proper prefix comes first. */
  lemma {:induction false} LexFirstDifference(a: string, b: string, k: nat)
    requires k <= |a| && k <= |b| && a[..k] == b[..k]
    requires k < |a| && k < |b| ==> a[k] != b[k]
    ensures k < |a| && k < |b| ==> (LexLess(a, b) <==> a[k] < b[k])
    ensures k == |a| || k == |b| ==> (LexLess(a, b) <==> |a| < |b|)
  {
    if k > 0 {
      assert a[..k][0] == b[..k][0];
      assert a[1..][..k - 1] == a[..k][1..] && b[1..][..k - 1] == b[..k][1..];
      LexFirstDifference(a[1..], b[1..], k - 1);
    }
  }
}
