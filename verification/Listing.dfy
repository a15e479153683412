/** The elements of a finite set, listed in ascending order. */
module Listing {

  ghost predicate Total<T(!new)>(less: (T, T) -> bool) {
    && (forall a :: !less(a, a))
    && (forall a, b :: a != b ==> less(a, b) || less(b, a))
    && (forall a, b, c :: less(a, b) && less(b, c) ==> less(a, c))
  }

  ghost predicate Ascending<T>(s: seq<T>, less: (T, T) -> bool) {
    forall i, j :: 0 <= i < j < |s| ==> less(s[i], s[j])
  }

  function Elements<T>(s: seq<T>): set<T> { set x | x in s }

  /** `s` lists `elements` in ascending order. */
  ghost predicate Lists<T(!new)>(s: seq<T>, elements: set<T>, less: (T, T) -> bool) {
    Ascending(s, less) && forall x :: x in s <==> x in elements
  }

  /** How many leading elements come before `x`. */
  function Rank<T>(x: T, s: seq<T>, less: (T, T) -> bool): (n: nat)
    ensures n <= |s|
    ensures forall i :: 0 <= i < n ==> less(s[i], x)
    ensures n < |s| ==> !less(s[n], x)
  {
    if s == [] || !less(s[0], x) then 0 else 1 + Rank(x, s[1..], less)
  }

  function Insert<T>(x: T, s: seq<T>, less: (T, T) -> bool): seq<T> {
    var n := Rank(x, s, less); s[..n] + [x] + s[n..]
  }

  lemma InsertLists<T(!new)>(x: T, s: seq<T>, elements: set<T>, less: (T, T) -> bool)
    requires Total(less) && Lists(s, elements, less) && x !in elements
    ensures Lists(Insert(x, s, less), elements + {x}, less)
  {
    var n := Rank(x, s, less);
    var t := Insert(x, s, less);
    assert forall y :: y in t <==> y in s[..n] || y == x || y in s[n..];
    assert s == s[..n] + s[n..];
    InsertAscends(x, s, n, less);
  }

  lemma InsertAscends<T(!new)>(x: T, s: seq<T>, n: nat, less: (T, T) -> bool)
    requires Total(less) && Ascending(s, less) && x !in s && n <= |s|
    requires (forall i :: 0 <= i < n ==> less(s[i], x)) && (n < |s| ==> !less(s[n], x))
    ensures Ascending(s[..n] + [x] + s[n..], less)
  {
    forall i | n <= i < |s| ensures less(x, s[i]) {
      assert s[n] != x && less(x, s[n]);
    }
  }

  lemma {:induction false} ListExists<T(!new)>(elements: set<T>, less: (T, T) -> bool) returns (s: seq<T>)
    requires Total(less)
    ensures Lists(s, elements, less)
  {
    if elements == {} {
      s := [];
    } else {
      var x :| x in elements;
      var rest := ListExists(elements - {x}, less);
      InsertLists(x, rest, elements - {x}, less);
      assert elements - {x} + {x} == elements;
      s := Insert(x, rest, less);
    }
  }

  ghost function Listed<T(!new)>(elements: set<T>, less: (T, T) -> bool): (s: seq<T>)
    requires Total(less)
    ensures Lists(s, elements, less)
  {
    assert exists s :: Lists(s, elements, less) by { var s := ListExists(elements, less); }
    var s :| Lists(s, elements, less);
    s
  }

  /** There is only one such list. */
  lemma {:induction false} ListIsUnique<T(!new)>(s: seq<T>, t: seq<T>, less: (T, T) -> bool)
    requires Total(less) && Ascending(s, less) && Ascending(t, less) && forall x :: x in s <==> x in t
    ensures s == t
  {
    if s == [] {
      assert forall i :: 0 <= i < |t| ==> t[i] in s;
    } else {
      assert s[0] in t;
      SameHead(s, t, less);
      TailsAgree(s, t, less);
      ListIsUnique(s[1..], t[1..], less);
      assert s == [s[0]] + s[1..] && t == [t[0]] + t[1..];
    }
  }

  lemma SameHead<T(!new)>(s: seq<T>, t: seq<T>, less: (T, T) -> bool)
    requires Total(less) && Ascending(s, less) && Ascending(t, less) && forall x :: x in s <==> x in t
    requires s != [] && t != []
    ensures s[0] == t[0]
  {
    assert s[0] in t && t[0] in s;
    var i :| 0 <= i < |t| && t[i] == s[0];
    var j :| 0 <= j < |s| && s[j] == t[0];
  }

  lemma TailsAgree<T(!new)>(s: seq<T>, t: seq<T>, less: (T, T) -> bool)
    requires Total(less) && Ascending(s, less) && Ascending(t, less) && forall x :: x in s <==> x in t
    requires s != [] && t != [] && s[0] == t[0]
    ensures forall x :: x in s[1..] <==> x in t[1..]
  {
    forall x ensures x in s[1..] <==> x in s && x != s[0] { InTail(s, x, less); }
    forall x ensures x in t[1..] <==> x in t && x != t[0] { InTail(t, x, less); }
  }

  lemma InTail<T(!new)>(s: seq<T>, x: T, less: (T, T) -> bool)
    requires Total(less) && Ascending(s, less) && s != []
    ensures x in s[1..] <==> x in s && x != s[0]
  {
    if x in s && x != s[0] {
      var i :| 0 <= i < |s| && s[i] == x;
      assert s[1..][i - 1] == x;
    }
  }

  lemma ListedIs<T(!new)>(s: seq<T>, elements: set<T>, less: (T, T) -> bool)
    requires Total(less) && Lists(s, elements, less)
    ensures s == Listed(elements, less)
  {
    ListIsUnique(s, Listed(elements, less), less);
  }

  /** `sort` on distinct elements, one insertion after the other. */
  method SortSet<T(!new, ==)>(elements: set<T>, less: (T, T) -> bool) returns (s: seq<T>)
    requires Total(less)
    ensures s == Listed(elements, less)
  {
    s := [];
    var rest := elements;
    while rest != {}
      invariant rest <= elements && Lists(s, elements - rest, less)
      decreases rest
    {
      var x :| x in rest;
      InsertLists(x, s, elements - rest, less);
      assert elements - (rest - {x}) == elements - rest + {x};
      s, rest := Insert(x, s, less), rest - {x};
    }
    assert elements - {} == elements;
    ListedIs(s, elements, less);
  }

  // ---- how the list changes with the set ----

  lemma ListedGrows<T(!new)>(elements: set<T>, x: T, less: (T, T) -> bool)
    requires Total(less) && forall y :: y in elements ==> less(y, x)
    ensures Listed(elements + {x}, less) == Listed(elements, less) + [x]
  {
    var s := Listed(elements, less);
    assert forall y :: y in s + [x] <==> y in s || y == x;
    ListedIs(s + [x], elements + {x}, less);
  }

  lemma ListedShrinks<T(!new)>(elements: set<T>, k: nat, less: (T, T) -> bool)
    requires Total(less) && k <= |Listed(elements, less)|
    ensures var s := Listed(elements, less); Listed(elements - Elements(s[..k]), less) == s[k..]
  {
    var s := Listed(elements, less);
    forall y ensures y in s[k..] <==> y in elements && y !in s[..k] { SplitsAt(s, k, y, less); }
    ListedIs(s[k..], elements - Elements(s[..k]), less);
  }

  lemma SplitsAt<T(!new)>(s: seq<T>, k: nat, y: T, less: (T, T) -> bool)
    requires Total(less) && Ascending(s, less) && k <= |s|
    ensures y in s[k..] <==> y in s && y !in s[..k]
  {
    assert s == s[..k] + s[k..];
    assert forall i, j :: 0 <= i < k && 0 <= j < |s| - k ==> less(s[..k][i], s[k..][j]);
  }

  lemma {:induction false} ListedSize<T(!new)>(s: seq<T>, elements: set<T>, less: (T, T) -> bool)
    requires Total(less) && Lists(s, elements, less)
    ensures |s| == |elements|
  {
    if s == [] {
      assert elements == {};
    } else {
      forall x ensures x in s[1..] <==> x in elements - {s[0]} { InTail(s, x, less); }
      ListedSize(s[1..], elements - {s[0]}, less);
    }
  }
}
