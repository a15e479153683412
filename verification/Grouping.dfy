/** Stable in-place sorting by a small integer key. */
module Grouping {

  /** The elements with key `g`, in their original order. */
  function WithKey<T>(s: seq<T>, key: T -> nat, g: nat): (r: seq<T>)
    ensures forall i :: 0 <= i < |r| ==> key(r[i]) == g
  {
    if s == [] then []
    else if key(s[0]) == g then [s[0]] + WithKey(s[1..], key, g)
    else WithKey(s[1..], key, g)
  }

  ghost predicate Sorted<T>(s: seq<T>, key: T -> nat) {
    forall i, j :: 0 <= i < j < |s| ==> key(s[i]) <= key(s[j])
  }

  /** `t` has the elements of `s`, and those with the same key in the same order. */
  ghost predicate SameWithin<T>(s: seq<T>, t: seq<T>, key: T -> nat) {
    && multiset(s) == multiset(t)
    && forall g :: WithKey(s, key, g) == WithKey(t, key, g)
  }

  ghost predicate StableSortOf<T>(t: seq<T>, s: seq<T>, key: T -> nat) {
    Sorted(t, key) && SameWithin(s, t, key)
  }

  lemma {:induction false} WithKeyConcat<T>(a: seq<T>, b: seq<T>, key: T -> nat, g: nat)
    ensures WithKey(a + b, key, g) == WithKey(a, key, g) + WithKey(b, key, g)
  {
    if a == [] {
      assert a + b == b;
    } else {
      WithKeyConcat(a[1..], b, key, g);
      assert (a + b)[1..] == a[1..] + b;
      assert (a + b)[0] == a[0];
      if key(a[0]) == g {
        assert WithKey(a + b, key, g) == [a[0]] + (WithKey(a[1..], key, g) + WithKey(b, key, g));
      }
    }
  }

  lemma {:induction false} WithKeyNone<T>(s: seq<T>, key: T -> nat, g: nat)
    requires forall i :: 0 <= i < |s| ==> key(s[i]) != g
    ensures WithKey(s, key, g) == []
  {
    if s != [] { WithKeyNone(s[1..], key, g); }
  }

  lemma {:induction false} WithKeySame<T>(s: seq<T>, key: T -> nat, g: nat)
    requires forall i :: 0 <= i < |s| ==> key(s[i]) == g
    ensures WithKey(s, key, g) == s
  {
    if s != [] { WithKeySame(s[1..], key, g); assert s == [s[0]] + s[1..]; }
  }

  /** There is only one stable sort. */
  lemma {:induction false} StableSortUnique<T>(s: seq<T>, t: seq<T>, key: T -> nat)
    requires Sorted(s, key) && Sorted(t, key)
    requires forall g :: WithKey(s, key, g) == WithKey(t, key, g)
    ensures s == t
  {
    if s == [] {
      NotEmpty(t, s, key);
    } else if t == [] {
      NotEmpty(s, t, key);
    } else {
      HeadKey(s, t, key);
      HeadKey(t, s, key);
      var k := key(s[0]);
      assert WithKey(s, key, k) == [s[0]] + WithKey(s[1..], key, k);
      assert WithKey(t, key, k) == [t[0]] + WithKey(t[1..], key, k);
      assert WithKey(s, key, k)[0] == WithKey(t, key, k)[0];
      forall g ensures WithKey(s[1..], key, g) == WithKey(t[1..], key, g) {
        assert WithKey(s, key, g) == WithKey(t, key, g);
        if g == k {
          assert WithKey(s[1..], key, g) == WithKey(s, key, g)[1..];
          assert WithKey(t[1..], key, g) == WithKey(t, key, g)[1..];
        }
      }
      StableSortUnique(s[1..], t[1..], key);
      assert s == [s[0]] + s[1..] && t == [t[0]] + t[1..];
    }
  }

  lemma HeadKey<T>(s: seq<T>, t: seq<T>, key: T -> nat)
    requires s != [] && t != [] && Sorted(t, key)
    requires WithKey(s, key, key(s[0])) == WithKey(t, key, key(s[0]))
    ensures key(t[0]) <= key(s[0])
  {
    assert WithKey(s, key, key(s[0])) != [];
    if forall i :: 0 <= i < |t| ==> key(t[i]) != key(s[0]) {
      WithKeyNone(t, key, key(s[0]));
    }
  }

  lemma NotEmpty<T>(s: seq<T>, t: seq<T>, key: T -> nat)
    requires forall g :: WithKey(s, key, g) == WithKey(t, key, g)
    ensures s != [] ==> t != []
  {
    assert s != [] ==> WithKey(s, key, key(s[0])) == WithKey(t, key, key(s[0]));
  }

  /** Exchanging neighbours with different keys disturbs no group. */
  lemma SwapKeeps<T>(s: seq<T>, j: nat, key: T -> nat)
    requires 0 < j < |s| && key(s[j - 1]) != key(s[j])
    ensures SameWithin(s, s[j - 1 := s[j]][j := s[j - 1]], key)
  {
    var x, y := s[j - 1], s[j];
    var a, b := s[..j - 1], s[j + 1..];
    var t := s[j - 1 := y][j := x];
    assert s == a + [x] + [y] + b && t == a + [y] + [x] + b;
    SwapBag(a, x, y, b);
    forall g ensures WithKey(s, key, g) == WithKey(t, key, g) { SwapWithin(a, x, y, b, key, g); }
  }

  lemma SwapBag<T>(a: seq<T>, x: T, y: T, b: seq<T>)
    ensures multiset(a + [x] + [y] + b) == multiset(a + [y] + [x] + b)
  {
  }

  lemma SwapWithin<T>(a: seq<T>, x: T, y: T, b: seq<T>, key: T -> nat, g: nat)
    requires key(x) != key(y)
    ensures WithKey(a + [x] + [y] + b, key, g) == WithKey(a + [y] + [x] + b, key, g)
  {
    ThreeWay(a, [x], [y], b, key, g);
    ThreeWay(a, [y], [x], b, key, g);
    assert WithKey([x], key, g) == [] || WithKey([y], key, g) == [];
  }

  lemma ThreeWay<T>(a: seq<T>, b: seq<T>, c: seq<T>, d: seq<T>, key: T -> nat, g: nat)
    ensures WithKey(a + b + c + d, key, g) ==
      WithKey(a, key, g) + WithKey(b, key, g) + WithKey(c, key, g) + WithKey(d, key, g)
  {
    WithKeyConcat(a + b + c, d, key, g);
    WithKeyConcat(a + b, c, key, g);
    WithKeyConcat(a, b, key, g);
  }

  lemma SameTransitive<T>(s: seq<T>, t: seq<T>, u: seq<T>, key: T -> nat)
    requires SameWithin(s, t, key) && SameWithin(t, u, key)
    ensures SameWithin(s, u, key)
  {
  }

  /** `sort.SliceStable`: an insertion sort of `a` by `key`, in place. */
  method StableSort<T>(a: array<T>, key: T -> nat)
    modifies a
    ensures StableSortOf(a[..], old(a[..]), key)
  {
    var i := 0;
    while i < a.Length
      invariant 0 <= i <= a.Length
      invariant forall p, q :: 0 <= p < q < i ==> key(a[p]) <= key(a[q])
      invariant SameWithin(old(a[..]), a[..], key)
    {
      ghost var was := a[..];
      Sink(a, i, key);
      SameTransitive(old(a[..]), was, a[..], key);
      i := i + 1;
    }
  }

  /** Move `a[i]` left to its place in the sorted prefix before it. */
  method Sink<T>(a: array<T>, i: nat, key: T -> nat)
    requires i < a.Length
    requires forall p, q :: 0 <= p < q < i ==> key(a[p]) <= key(a[q])
    modifies a
    ensures forall p, q :: 0 <= p < q <= i ==> key(a[p]) <= key(a[q])
    ensures SameWithin(old(a[..]), a[..], key)
  {
    var j := i;
    while j > 0 && key(a[j - 1]) > key(a[j])
      invariant 0 <= j <= i
      invariant forall p, q :: 0 <= p < q <= i && q != j ==> key(a[p]) <= key(a[q])
      invariant SameWithin(old(a[..]), a[..], key)
    {
      ghost var was := a[..];
      Swap(a, j, key);
      SameTransitive(old(a[..]), was, a[..], key);
      j := j - 1;
    }
  }

  method Swap<T>(a: array<T>, j: nat, key: T -> nat)
    requires 0 < j < a.Length && key(a[j - 1]) != key(a[j])
    modifies a
    ensures a[j] == old(a[j - 1]) && a[j - 1] == old(a[j])
    ensures forall k :: 0 <= k < a.Length && k != j && k != j - 1 ==> a[k] == old(a[k])
    ensures SameWithin(old(a[..]), a[..], key)
  {
    SwapKeeps(a[..], j, key);
    a[j - 1], a[j] := a[j], a[j - 1];
    assert a[..] == old(a[..])[j - 1 := old(a[j])][j := old(a[j - 1])];
  }

  /** Two places of a list are two places of any permutation of it, in one order or the other. */
  lemma PairKept<T>(s: seq<T>, t: seq<T>, i: nat, j: nat) returns (a: nat, b: nat)
    requires multiset(s) == multiset(t) && i < j < |s|
    ensures a < b < |t| && ((t[a] == s[i] && t[b] == s[j]) || (t[a] == s[j] && t[b] == s[i]))
  {
    assert s[i] in multiset(s);
    var k :| 0 <= k < |t| && t[k] == s[i];
    var rest := Without(t, k);
    WithoutOne(s, i);
    WithoutOne(t, k);
    assert Without(s, i)[j - 1] == s[j];
    assert s[j] in multiset(rest);
    var m :| 0 <= m < |rest| && rest[m] == s[j];
    if m < k { a, b := m, k; } else { a, b := k, m + 1; }
  }

  function Without<T>(s: seq<T>, i: nat): seq<T>
    requires i < |s|
  {
    s[..i] + s[i + 1..]
  }

  lemma WithoutOne<T>(s: seq<T>, i: nat)
    requires i < |s|
    ensures multiset(Without(s, i)) == multiset(s) - multiset{s[i]}
  {
    assert s == s[..i] + [s[i]] + s[i + 1..];
    assert multiset(s) == multiset(s[..i]) + multiset{s[i]} + multiset(s[i + 1..]);
  }
}
