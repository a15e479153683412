/** Which processes a report shows: the pinned ones and the leaders in four
    dimensions, under a hard cap. */
module Processes {
  import opened Text
  import opened Listing

  datatype Candidate = Candidate(pid: int, cpu: real, rss: nat, ioRate: real, conns: int)

  /** One candidate per process. */
  ghost predicate DistinctPids(cands: seq<Candidate>) {
    forall i, j :: 0 <= i < j < |cands| ==> cands[i].pid != cands[j].pid
  }

  function Pids(cands: seq<Candidate>): set<int> { set c | c in cands :: c.pid }

  // ---- ranking in one dimension ----

  datatype Key = Key(score: real, pid: int)

  /** Higher score first, lower pid on a tie. */
  predicate Better(a: Key, b: Key) { a.score > b.score || (a.score == b.score && a.pid < b.pid) }

  predicate Lower(a: int, b: int) { a < b }

  lemma OrdersAreTotal()
    ensures Total(Better) && Total(Lower)
  {
  }

  datatype Dimension = Cpu | Rss | Io | Conns {
    function Score(c: Candidate): real {
      match this
      case Cpu => c.cpu
      case Rss => c.rss as real
      case Io => c.ioRate
      case Conns => c.conns as real
    }

    /** A process without activity is no leader in a sparse dimension. */
    predicate Eligible(c: Candidate) { Cpu? || Rss? || Score(c) > 0.0 }

    function KeyOf(c: Candidate): Key { Key(Score(c), c.pid) }
  }

  function Keys(cands: seq<Candidate>, d: Dimension): set<Key> { set c | c in cands && d.Eligible(c) :: d.KeyOf(c) }

  ghost function Ranking(cands: seq<Candidate>, d: Dimension): seq<Key> {
    OrdersAreTotal();
    Listed(Keys(cands, d), Better)
  }

  function PidOf(k: Key): int { k.pid }

  function Take<T>(s: seq<T>, n: nat): seq<T> { if n < |s| then s[..n] else s }

  ghost function Top(cands: seq<Candidate>, d: Dimension, n: nat): seq<int> { Map(Take(Ranking(cands, d), n), PidOf) }

  ghost function Pinned(pinned: set<int>): seq<int> {
    OrdersAreTotal();
    Listed(pinned, Lower)
  }

  // ---- what is asked for, in order of priority ----

  const DIMENSIONS: seq<Dimension> := [Cpu, Rss, Io, Conns]

  ghost function TopOf(cands: seq<Candidate>, n: nat): Dimension -> seq<int> { d => Top(cands, d, n) }

  ghost function Wishes(cands: seq<Candidate>, pinned: set<int>, n: nat): seq<int> {
    Pinned(pinned) + FlatMap(DIMENSIONS, TopOf(cands, n))
  }

  /** `add`: a live process that is not in the list yet. */
  function Append(ordered: seq<int>, pid: int, live: set<int>): seq<int> {
    if pid !in ordered && pid in live then ordered + [pid] else ordered
  }

  function AppendAll(ordered: seq<int>, pids: seq<int>, live: set<int>): seq<int> {
    if pids == [] then ordered else Append(AppendAll(ordered, pids[..|pids| - 1], live), pids[|pids| - 1], live)
  }

  ghost function Ordered(cands: seq<Candidate>, pinned: set<int>, n: nat): seq<int> {
    AppendAll([], Wishes(cands, pinned, n), Pids(cands))
  }

  ghost function Selected(cands: seq<Candidate>, pinned: set<int>, n: nat, max: nat): seq<int> {
    OrdersAreTotal();
    Listed(Elements(Take(Ordered(cands, pinned, n), max)), Lower)
  }

  // ---- the code ----

  class Selection {
    const live: set<int>
    var ordered: seq<int>
    var inOrder: set<int>

    ghost predicate Valid()
      reads this
    {
      forall pid :: pid in inOrder <==> pid in ordered
    }

    constructor (live: set<int>)
      ensures Valid() && this.live == live && ordered == []
    {
      this.live, ordered, inOrder := live, [], {};
    }

    method Add(pid: int)
      requires Valid()
      modifies this
      ensures Valid() && ordered == Append(old(ordered), pid, live)
    {
      if pid !in inOrder && pid in live {
        inOrder := inOrder + {pid};
        ordered := ordered + [pid];
      }
    }

    method AddEach(pids: seq<int>)
      requires Valid()
      modifies this
      ensures Valid() && ordered == AppendAll(old(ordered), pids, live)
    {
      for i := 0 to |pids|
        invariant Valid() && ordered == AppendAll(old(ordered), pids[..i], live)
      {
        assert pids[..i + 1][..i] == pids[..i];
        Add(pids[i]);
      }
      assert pids[..|pids|] == pids;
    }

    method AddTop(cands: seq<Candidate>, d: Dimension, n: nat)
      requires Valid()
      modifies this
      ensures Valid() && ordered == AppendAll(old(ordered), Top(cands, d, n), live)
    {
      OrdersAreTotal();
      var keys := CollectKeys(cands, d);
      var ranking := SortSet(keys, Better);
      var pids := Map(Take(ranking, n), PidOf);
      AddEach(pids);
    }
  }

  method CollectKeys(cands: seq<Candidate>, d: Dimension) returns (keys: set<Key>)
    ensures keys == Keys(cands, d)
  {
    keys := {};
    for i := 0 to |cands|
      invariant keys == Keys(cands[..i], d)
    {
      KeysGrow(cands, i, d);
      if d.Eligible(cands[i]) { keys := keys + {d.KeyOf(cands[i])}; }
    }
    assert cands[..|cands|] == cands;
  }

  lemma KeysGrow(cands: seq<Candidate>, i: nat, d: Dimension)
    requires i < |cands|
    ensures Keys(cands[..i + 1], d) == Keys(cands[..i], d) + if d.Eligible(cands[i]) then {d.KeyOf(cands[i])} else {}
  {
    assert cands[..i + 1] == cands[..i] + [cands[i]];
  }

  method LivePids(cands: seq<Candidate>) returns (live: set<int>)
    ensures live == Pids(cands)
  {
    live := {};
    for i := 0 to |cands|
      invariant live == Pids(cands[..i])
    {
      assert cands[..i + 1] == cands[..i] + [cands[i]];
      live := live + {cands[i].pid};
    }
    assert cands[..|cands|] == cands;
  }

  lemma AppendMore(ordered: seq<int>, a: seq<int>, b: seq<int>, live: set<int>)
    ensures AppendAll(ordered, a + b, live) == AppendAll(AppendAll(ordered, a, live), b, live)
  {
    if b == [] {
      assert a + b == a;
    } else {
      AppendMore(ordered, a, b[..|b| - 1], live);
      assert (a + b)[..|a + b| - 1] == a + b[..|b| - 1];
    }
  }

  /** `selectProcs`. */
  method SelectProcs(cands: seq<Candidate>, pinned: set<int>, n: nat, max: nat)
    returns (selected: seq<int>, truncated: bool)
    requires DistinctPids(cands)
    ensures selected == Selected(cands, pinned, n, max) && truncated == (|Ordered(cands, pinned, n)| > max)
  {
    OrdersAreTotal();
    var live := LivePids(cands);
    var selection := new Selection(live);
    var pinnedList := SortSet(pinned, Lower);
    selection.AddEach(pinnedList);
    ghost var tops := TopOf(cands, n);
    assert pinnedList + [] == pinnedList;
    for i := 0 to |DIMENSIONS|
      invariant selection.Valid() && selection.live == live
      invariant selection.ordered == AppendAll([], pinnedList + FlatMap(DIMENSIONS[..i], tops), live)
    {
      FlatMapSnoc(DIMENSIONS, i, tops);
      Associative(pinnedList, FlatMap(DIMENSIONS[..i], tops), tops(DIMENSIONS[i]));
      AppendMore([], pinnedList + FlatMap(DIMENSIONS[..i], tops), tops(DIMENSIONS[i]), live);
      selection.AddTop(cands, DIMENSIONS[i], n);
    }
    assert DIMENSIONS[..|DIMENSIONS|] == DIMENSIONS;
    var ordered := selection.ordered;
    truncated := |ordered| > max;
    var kept := if truncated then ordered[..max] else ordered;
    selected := SortSet(Elements(kept), Lower);
  }

  // ---- who leads ----

  function Ahead(keys: set<Key>, mine: Key): set<Key> { set k | k in keys && Better(k, mine) }

  lemma AheadIsPrefix(s: seq<Key>, keys: set<Key>, i: nat)
    requires Lists(s, keys, Better) && i < |s|
    ensures |Ahead(keys, s[i])| == i
  {
    OrdersAreTotal();
    assert forall k :: k in s[..i] <==> k in Ahead(keys, s[i]) by {
      assert forall j :: i <= j < |s| ==> !Better(s[j], s[i]);
      assert forall k :: k in Ahead(keys, s[i]) ==> k in s;
    }
    ListedSize(s[..i], Ahead(keys, s[i]), Better);
  }

  /** A candidate is among the top `n` of a dimension exactly when it is eligible
      and fewer than `n` eligible candidates are better. */
  lemma TopExact(cands: seq<Candidate>, d: Dimension, n: nat, c: Candidate)
    requires DistinctPids(cands) && c in cands
    ensures c.pid in Top(cands, d, n) <==> d.Eligible(c) && |Ahead(Keys(cands, d), d.KeyOf(c))| < n
  {
    OrdersAreTotal();
    var s, keys, mine := Ranking(cands, d), Keys(cands, d), d.KeyOf(c);
    OneKeyPerPid(cands, d, c);
    if d.Eligible(c) {
      assert mine in s;
      var i :| 0 <= i < |s| && s[i] == mine;
      AheadIsPrefix(s, keys, i);
      InTake(s, n, i);
    }
    forall k | k in Take(s, n) && k.pid == c.pid ensures k == mine && d.Eligible(c) {
      assert k in s;
    }
    PidsOfTake(Take(s, n), c.pid);
  }

  lemma OneKeyPerPid(cands: seq<Candidate>, d: Dimension, c: Candidate)
    requires DistinctPids(cands) && c in cands
    ensures forall k :: k in Keys(cands, d) && k.pid == c.pid ==> k == d.KeyOf(c) && d.Eligible(c)
    ensures d.KeyOf(c) in Keys(cands, d) <==> d.Eligible(c)
  {
  }

  lemma InTake(s: seq<Key>, n: nat, i: nat)
    requires Ascending(s, Better) && i < |s|
    ensures s[i] in Take(s, n) <==> i < n
  {
    if n < |s| {
      assert i < n ==> s[..n][i] == s[i];
      assert forall j :: 0 <= j < n ==> s[..n][j] == s[j];
    }
  }

  lemma PidsOfTake(s: seq<Key>, pid: int)
    ensures pid in Map(s, PidOf) <==> exists k :: k in s && k.pid == pid
  {
    if pid in Map(s, PidOf) {
      var i :| 0 <= i < |s| && Map(s, PidOf)[i] == pid;
      assert s[i] in s;
    }
    if k :| k in s && k.pid == pid {
      var i :| 0 <= i < |s| && s[i] == k;
      assert Map(s, PidOf)[i] == pid;
    }
  }

  // ---- what is selected ----

  ghost predicate NoDuplicates(s: seq<int>) { forall i, j :: 0 <= i < j < |s| ==> s[i] != s[j] }

  lemma {:induction false} AppendedIs(pids: seq<int>, live: set<int>)
    ensures var r := AppendAll([], pids, live);
      NoDuplicates(r) && forall p :: p in r <==> p in pids && p in live
  {
    if pids != [] {
      AppendedIs(pids[..|pids| - 1], live);
      AppendStep(AppendAll([], pids[..|pids| - 1], live), pids[|pids| - 1], live);
      assert pids == pids[..|pids| - 1] + [pids[|pids| - 1]];
    }
  }

  lemma AppendStep(r: seq<int>, pid: int, live: set<int>)
    requires NoDuplicates(r)
    ensures var t := Append(r, pid, live);
      NoDuplicates(t) && forall p :: p in t <==> p in r || (p == pid && pid in live)
  {
  }

  lemma {:induction false} AppendExtends(r: seq<int>, pids: seq<int>, live: set<int>)
    ensures r <= AppendAll(r, pids, live)
  {
    if pids != [] { AppendExtends(r, pids[..|pids| - 1], live); }
  }

  /** The processes asked for: the pinned and the leaders, as far as they live. */
  ghost function Wanted(cands: seq<Candidate>, pinned: set<int>, n: nat): set<int> {
    set p | p in Wishes(cands, pinned, n) && p in Pids(cands)
  }

  lemma {:induction false} SizeOf(s: seq<int>)
    requires NoDuplicates(s)
    ensures |Elements(s)| == |s|
  {
    if s != [] {
      var front, last := s[..|s| - 1], s[|s| - 1];
      SizeOf(front);
      assert s == front + [last];
      assert Elements(s) == Elements(front) + {last};
      assert last !in front;
    }
  }

  /** The selection is sorted and without duplicates. When all that is wanted fits,
      it is exactly that; otherwise it is a part of that of exactly the maximal size. */
  lemma SelectedIs(cands: seq<Candidate>, pinned: set<int>, n: nat, max: nat)
    ensures var s, wanted := Selected(cands, pinned, n, max), Wanted(cands, pinned, n);
      && Ascending(s, Lower)
      && (if |wanted| <= max then Elements(s) == wanted else Elements(s) <= wanted && |s| == max)
      && (|Ordered(cands, pinned, n)| > max <==> |wanted| > max)
  {
    OrdersAreTotal();
    var ordered := Ordered(cands, pinned, n);
    var kept := Take(ordered, max);
    AppendedIs(Wishes(cands, pinned, n), Pids(cands));
    assert Elements(ordered) == Wanted(cands, pinned, n);
    SizeOf(ordered);
    SizeOf(kept);
    var s := Listed(Elements(kept), Lower);
    assert Elements(s) == Elements(kept);
    ListedSize(s, Elements(kept), Lower);
  }

  /** Under the cap the priority decides: whatever leading part of the wishes one
      takes, nothing of it is dropped while something from outside it is kept. */
  lemma PriorityDecides(cands: seq<Candidate>, pinned: set<int>, n: nat, max: nat, j: nat, dropped: int, kept: int)
    requires var wishes := Wishes(cands, pinned, n); j <= |wishes| && dropped in wishes[..j] && kept !in wishes[..j]
    requires dropped in Pids(cands) && dropped !in Selected(cands, pinned, n, max)
    ensures kept !in Selected(cands, pinned, n, max)
  {
    OrdersAreTotal();
    var wishes, live, ordered := Wishes(cands, pinned, n), Pids(cands), Ordered(cands, pinned, n);
    var part := AppendAll([], wishes[..j], live);
    assert wishes == wishes[..j] + wishes[j..];
    AppendMore([], wishes[..j], wishes[j..], live);
    AppendExtends(part, wishes[j..], live);
    AppendedIs(wishes[..j], live);
    CutInside(ordered, part, max, dropped, kept);
  }

  lemma CutInside(ordered: seq<int>, part: seq<int>, max: nat, dropped: int, kept: int)
    requires part <= ordered && dropped in part && kept !in part && dropped !in Take(ordered, max)
    ensures kept !in Take(ordered, max)
  {
    assert |part| <= max ==> part <= Take(ordered, max);
    assert Take(ordered, max) == part[..max];
  }

  /** In particular no live pinned process is dropped while one that is not pinned is kept. */
  lemma PinnedFirst(cands: seq<Candidate>, pinned: set<int>, n: nat, max: nat, dropped: int, kept: int)
    requires dropped in pinned && dropped in Pids(cands) && dropped !in Selected(cands, pinned, n, max) &&
      kept !in pinned
    ensures kept !in Selected(cands, pinned, n, max)
  {
    OrdersAreTotal();
    var p := Pinned(pinned);
    assert Wishes(cands, pinned, n)[..|p|] == p;
    PriorityDecides(cands, pinned, n, max, |p|, dropped, kept);
  }

  /** What is wanted, said without the order: live, and pinned or a leader somewhere. */
  lemma WantedExact(cands: seq<Candidate>, pinned: set<int>, n: nat, c: Candidate)
    requires DistinctPids(cands) && c in cands
    ensures c.pid in Wanted(cands, pinned, n) <==>
      c.pid in pinned || exists d: Dimension :: d.Eligible(c) && |Ahead(Keys(cands, d), d.KeyOf(c))| < n
  {
    OrdersAreTotal();
    InWishes(cands, pinned, n, c.pid);
    forall d: Dimension
      ensures c.pid in Top(cands, d, n) <==> d.Eligible(c) && |Ahead(Keys(cands, d), d.KeyOf(c))| < n
    {
      TopExact(cands, d, n, c);
    }
  }

  lemma InWishes(cands: seq<Candidate>, pinned: set<int>, n: nat, p: int)
    ensures p in Wishes(cands, pinned, n) <==> p in pinned || exists d: Dimension :: p in Top(cands, d, n)
  {
    OrdersAreTotal();
    var f := TopOf(cands, n);
    InFlatMap(DIMENSIONS, f, p);
    assert forall d: Dimension :: f(d) == Top(cands, d, n);
    forall d: Dimension ensures d in DIMENSIONS {
      assert d == DIMENSIONS[0] || d == DIMENSIONS[1] || d == DIMENSIONS[2] || d == DIMENSIONS[3];
    }
  }

  lemma {:induction false} InFlatMap(ds: seq<Dimension>, f: Dimension -> seq<int>, p: int)
    ensures p in FlatMap(ds, f) <==> exists d :: d in ds && p in f(d)
  {
    if ds != [] {
      InFlatMap(ds[1..], f, p);
      HeadTail(ds);
    }
  }
}
