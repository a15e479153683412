/** The order in which a vhost's routes are written, and that nginx's choice of
    route does not depend on it. */
module Locations {
  import opened Text
  import opened Payload
  import opened Grouping

  function MatcherGroup(loc: LocationSpec): (g: nat)
    ensures g < 4
  {
    if loc.matcher == "=" then 0
    else if loc.matcher == "^~" then 1
    else if IsRegexMatcher(loc.matcher) then 3
    else 2
  }

  const DEFAULT_LOCATION := LocationSpec("", "/", "", None)

  /** The routes a payload stands for: no routes means the historical `location /`. */
  function Declared(p: Payload): seq<LocationSpec> {
    if p.locations == [] then [DEFAULT_LOCATION] else p.locations
  }

  function InGroup(locs: seq<LocationSpec>, g: nat): seq<LocationSpec> {
    WithKey(locs, MatcherGroup, g)
  }

  /** Exact routes, then `^~`, then plain prefixes, then regexes, each in declared order. */
  function Grouped(locs: seq<LocationSpec>): seq<LocationSpec> {
    InGroup(locs, 0) + InGroup(locs, 1) + InGroup(locs, 2) + InGroup(locs, 3)
  }

  function Ordered(p: Payload): seq<LocationSpec> { Grouped(Declared(p)) }

  lemma {:induction false} GroupsMultiset(locs: seq<LocationSpec>)
    ensures multiset(locs) ==
      multiset(InGroup(locs, 0)) + multiset(InGroup(locs, 1)) + multiset(InGroup(locs, 2)) + multiset(InGroup(locs, 3))
  {
    if locs != [] {
      GroupsMultiset(locs[1..]);
      assert locs == [locs[0]] + locs[1..];
    }
  }

  lemma GroupedWithin(locs: seq<LocationSpec>, g: nat)
    ensures InGroup(Grouped(locs), g) == InGroup(locs, g)
  {
    var g0, g1, g2, g3 := InGroup(locs, 0), InGroup(locs, 1), InGroup(locs, 2), InGroup(locs, 3);
    ThreeWay(g0, g1, g2, g3, MatcherGroup, g);
    GroupOfGroup(locs, 0, g);
    GroupOfGroup(locs, 1, g);
    GroupOfGroup(locs, 2, g);
    GroupOfGroup(locs, 3, g);
    if g >= 4 { WithKeyNone(locs, MatcherGroup, g); }
  }

  lemma GroupOfGroup(locs: seq<LocationSpec>, h: nat, g: nat)
    ensures InGroup(InGroup(locs, h), g) == if g == h then InGroup(locs, h) else []
  {
    if g == h {
      WithKeySame(InGroup(locs, h), MatcherGroup, g);
    } else {
      WithKeyNone(InGroup(locs, h), MatcherGroup, g);
    }
  }

  /** Grouping is the stable sort by matcher group: a permutation that keeps the declared order inside every group. */
  lemma GroupedIsStableSort(locs: seq<LocationSpec>)
    ensures StableSortOf(Grouped(locs), locs, MatcherGroup)
  {
    GroupsMultiset(locs);
    forall g ensures WithKey(locs, MatcherGroup, g) == WithKey(Grouped(locs), MatcherGroup, g) {
      GroupedWithin(locs, g);
    }
  }

  /** `OrderedLocations`: sort a copy in place. */
  method OrderedLocations(p: Payload) returns (out: seq<LocationSpec>)
    ensures out == Ordered(p)
  {
    GroupedIsStableSort(Declared(p));
    if |p.locations| == 0 {
      out := [DEFAULT_LOCATION];
      StableSortUnique(out, Ordered(p), MatcherGroup);
      return;
    }
    var a := new LocationSpec[|p.locations|](i requires 0 <= i < |p.locations| => p.locations[i]);
    assert a[..] == p.locations;
    StableSort(a, MatcherGroup);
    StableSortUnique(a[..], Ordered(p), MatcherGroup);
    return a[..];
  }

  // ---- nginx's selection rule ----

  /** Whether a regex route matches a URI; the engine itself is not modelled. */
  type Engine = (LocationSpec, string) -> bool

  predicate IsPrefixRoute(loc: LocationSpec) { loc.matcher == "" || loc.matcher == "^~" }

  function ExactMatch(locs: seq<LocationSpec>, uri: string): Option<LocationSpec> {
    if locs == [] then None
    else if locs[0].matcher == "=" && locs[0].path == uri then Some(locs[0])
    else ExactMatch(locs[1..], uri)
  }

  /** The first regex, in file order, that matches. */
  function RegexMatch(locs: seq<LocationSpec>, uri: string, rx: Engine): Option<LocationSpec> {
    if locs == [] then None
    else if MatcherGroup(locs[0]) == 3 && rx(locs[0], uri) then Some(locs[0])
    else RegexMatch(locs[1..], uri, rx)
  }

  predicate PrefixHit(loc: LocationSpec, uri: string) { IsPrefixRoute(loc) && HasPrefix(uri, loc.path) }

  /** The longest matching prefix; in a file that nginx loads there is only one. */
  function LongestPrefix(locs: seq<LocationSpec>, uri: string): Option<LocationSpec> {
    if locs == [] then None
    else
      var rest := LongestPrefix(locs[1..], uri);
      if PrefixHit(locs[0], uri) && (rest == None || |rest.value.path| <= |locs[0].path|) then Some(locs[0]) else rest
  }

  /** Exact match first; then the longest prefix is stored and a `^~` prefix ends
      the search; then the first matching regex; then the stored prefix. */
  function Select(locs: seq<LocationSpec>, uri: string, rx: Engine): Option<LocationSpec> {
    var exact := ExactMatch(locs, uri);
    var stored := LongestPrefix(locs, uri);
    var regex := RegexMatch(locs, uri, rx);
    if exact != None then exact
    else if stored != None && stored.value.matcher == "^~" then stored
    else if regex != None then regex
    else stored
  }

  predicate Clash(a: LocationSpec, b: LocationSpec) {
    a.path == b.path && ((IsPrefixRoute(a) && IsPrefixRoute(b)) || (a.matcher == "=" && b.matcher == "="))
  }

  /** Two prefix routes or two exact routes share a path. nginx reports a
      duplicate location and loads nothing. */
  ghost predicate Repeats(locs: seq<LocationSpec>) {
    exists i, j :: 0 <= i < j < |locs| && Clash(locs[i], locs[j])
  }

  /** What nginx does with a request: nothing, if it refuses the file. */
  datatype Answer = Refused | Chosen(route: Option<LocationSpec>)

  ghost function Route(locs: seq<LocationSpec>, uri: string, rx: Engine): Answer {
    if Repeats(locs) then Refused else Chosen(Select(locs, uri, rx))
  }

  // ---- the order of the file matters only inside a group ----

  lemma {:induction false} ExactInGroup(locs: seq<LocationSpec>, uri: string)
    ensures ExactMatch(locs, uri) == ExactMatch(InGroup(locs, 0), uri)
  {
    if locs != [] { ExactInGroup(locs[1..], uri); }
  }

  lemma {:induction false} RegexInGroup(locs: seq<LocationSpec>, uri: string, rx: Engine)
    ensures RegexMatch(locs, uri, rx) == RegexMatch(InGroup(locs, 3), uri, rx)
  {
    if locs != [] { RegexInGroup(locs[1..], uri, rx); }
  }

  /** `i` is where the longest-prefix search stops: no hit is longer, and no earlier hit is as long. */
  ghost predicate IsLongest(locs: seq<LocationSpec>, uri: string, i: nat) {
    && i < |locs| && PrefixHit(locs[i], uri)
    && forall k :: 0 <= k < |locs| && PrefixHit(locs[k], uri) ==>
      |locs[k].path| <= |locs[i].path| && (k < i ==> |locs[k].path| < |locs[i].path|)
  }

  lemma {:induction false} LongestAt(locs: seq<LocationSpec>, uri: string) returns (i: nat)
    ensures LongestPrefix(locs, uri) == None ==> forall k :: 0 <= k < |locs| ==> !PrefixHit(locs[k], uri)
    ensures LongestPrefix(locs, uri) != None ==> IsLongest(locs, uri, i) && LongestPrefix(locs, uri) == Some(locs[i])
  {
    i := 0;
    if locs != [] {
      var j := LongestAt(locs[1..], uri);
      var rest := LongestPrefix(locs[1..], uri);
      if rest != None && !(PrefixHit(locs[0], uri) && |rest.value.path| <= |locs[0].path|) {
        i := j + 1;
      }
    }
  }

  // ---- the written order routes like the declared one ----

  /** A path is declared both as a plain prefix and as a `^~` one. */
  ghost predicate BothWays(locs: seq<LocationSpec>) {
    exists a, b :: a in locs && b in locs && a.matcher == "" && b.matcher == "^~" && a.path == b.path
  }

  /** What validation guarantees about declared routes. */
  ghost predicate Routable(locs: seq<LocationSpec>) {
    && (forall i :: 0 <= i < |locs| ==> IsPlainMatcher(locs[i].matcher) || IsRegexMatcher(locs[i].matcher))
    && (forall i :: 0 <= i < |locs| && IsPlainMatcher(locs[i].matcher) ==> LocPathOk(locs[i].path))
    && (forall i, j :: 0 <= i < j < |locs| ==> locs[i].matcher != locs[j].matcher || locs[i].path != locs[j].path)
  }

  lemma DeclaredRoutable(p: Payload, lib: Library)
    requires LocationsOk(p, lib)
    ensures Routable(Declared(p))
  {
    forall i, j | 0 <= i < j < |p.locations|
      ensures p.locations[i].matcher != p.locations[j].matcher || p.locations[i].path != p.locations[j].path
    {
      KeyDeterminesLocation(p.locations[i], p.locations[j]);
    }
  }

  lemma SameElements(locs: seq<LocationSpec>, loc: LocationSpec)
    ensures loc in locs <==> loc in Grouped(locs)
  {
    GroupedIsStableSort(locs);
    assert loc in locs <==> loc in multiset(locs);
    assert loc in Grouped(locs) <==> loc in multiset(Grouped(locs));
  }

  lemma SamePath(a: string, b: string, uri: string)
    requires HasPrefix(uri, a) && HasPrefix(uri, b) && |a| == |b|
    ensures a == b
  {
  }

  /** Both lists store a prefix of the same path, or neither stores one. */
  lemma StoredPath(locs: seq<LocationSpec>, other: seq<LocationSpec>, uri: string)
    requires forall loc :: loc in locs <==> loc in other
    ensures LongestPrefix(locs, uri) == None <==> LongestPrefix(other, uri) == None
    ensures LongestPrefix(locs, uri) != None ==>
      LongestPrefix(locs, uri).value.path == LongestPrefix(other, uri).value.path
  {
    var i := LongestAt(locs, uri);
    var j := LongestAt(other, uri);
    if LongestPrefix(locs, uri) != None {
      assert locs[i] in other;
      var k :| 0 <= k < |other| && other[k] == locs[i];
      assert PrefixHit(other[k], uri);
    }
    if LongestPrefix(other, uri) != None {
      assert other[j] in locs;
      var k :| 0 <= k < |locs| && locs[k] == other[j];
      assert PrefixHit(locs[k], uri);
    }
    if LongestPrefix(locs, uri) != None {
      SamePath(locs[i].path, other[j].path, uri);
    }
  }

  lemma RoutableGrouped(locs: seq<LocationSpec>)
    requires Routable(locs)
    ensures Routable(Grouped(locs))
  {
    var g := Grouped(locs);
    GroupedIsStableSort(locs);
    forall i | 0 <= i < |g| ensures g[i] in locs { SameElements(locs, g[i]); }
    forall i, j | 0 <= i < j < |g| ensures g[i].matcher != g[j].matcher || g[i].path != g[j].path {
      var a, b := PairKept(g, locs, i, j);
    }
  }

  /** Among validated routes only a path declared both ways is a clash. */
  lemma RepeatsMeans(locs: seq<LocationSpec>)
    requires Routable(locs)
    ensures Repeats(locs) <==> BothWays(locs)
  {
    if Repeats(locs) {
      var i, j :| 0 <= i < j < |locs| && Clash(locs[i], locs[j]);
      if locs[i].matcher == "" {
        assert locs[i] in locs && locs[j] in locs && locs[j].matcher == "^~";
      } else {
        assert locs[j] in locs && locs[i] in locs && locs[j].matcher == "";
      }
    }
    if BothWays(locs) {
      var a, b :| a in locs && b in locs && a.matcher == "" && b.matcher == "^~" && a.path == b.path;
      var i :| 0 <= i < |locs| && locs[i] == a;
      var j :| 0 <= j < |locs| && locs[j] == b;
      assert Clash(locs[i], locs[j]) && Clash(locs[j], locs[i]);
    }
  }

  lemma RepeatsKept(locs: seq<LocationSpec>)
    requires Routable(locs)
    ensures Repeats(Grouped(locs)) <==> Repeats(locs)
  {
    RoutableGrouped(locs);
    RepeatsMeans(locs);
    RepeatsMeans(Grouped(locs));
    forall loc ensures loc in locs <==> loc in Grouped(locs) { SameElements(locs, loc); }
  }

  lemma NoClash(locs: seq<LocationSpec>, a: LocationSpec, b: LocationSpec)
    requires !Repeats(locs) && a in locs && b in locs && Clash(a, b)
    ensures a == b
  {
    var i :| 0 <= i < |locs| && locs[i] == a;
    var j :| 0 <= j < |locs| && locs[j] == b;
    assert Clash(b, a);
  }

  lemma StoredKept(locs: seq<LocationSpec>, uri: string)
    requires Routable(locs) && !Repeats(locs)
    ensures LongestPrefix(Grouped(locs), uri) == LongestPrefix(locs, uri)
  {
    var g := Grouped(locs);
    forall loc ensures loc in locs <==> loc in g { SameElements(locs, loc); }
    StoredPath(locs, g, uri);
    var i := LongestAt(locs, uri);
    var j := LongestAt(g, uri);
    if LongestPrefix(locs, uri) != None {
      assert g[j] in locs;
      NoClash(locs, locs[i], g[j]);
    }
  }

  lemma SameOutsidePrefixes(locs: seq<LocationSpec>, uri: string, rx: Engine)
    ensures ExactMatch(Grouped(locs), uri) == ExactMatch(locs, uri)
    ensures RegexMatch(Grouped(locs), uri, rx) == RegexMatch(locs, uri, rx)
  {
    GroupedWithin(locs, 0);
    GroupedWithin(locs, 3);
    ExactInGroup(locs, uri);
    ExactInGroup(Grouped(locs), uri);
    RegexInGroup(locs, uri, rx);
    RegexInGroup(Grouped(locs), uri, rx);
  }

  /** For every valid payload, every URI and every regex engine, nginx answers
      alike whether the routes are written as declared or as ordered: it refuses
      both files, or it picks the same route from both. */
  lemma OrderPreservesRouting(p: Payload, lib: Library, uri: string, rx: Engine)
    requires LocationsOk(p, lib)
    ensures Route(Ordered(p), uri, rx) == Route(Declared(p), uri, rx)
  {
    var locs := Declared(p);
    DeclaredRoutable(p, lib);
    RepeatsKept(locs);
    if !Repeats(locs) {
      SameOutsidePrefixes(locs, uri, rx);
      StoredKept(locs, uri);
    }
  }

  // ---- what validation lets through and nginx does not ----

  /** A file with valid routes is refused for a repeated path exactly when some
      path is declared both plainly and with `^~`. */
  lemma RefusedExactly(p: Payload, lib: Library)
    requires LocationsOk(p, lib)
    ensures Repeats(Ordered(p)) <==> BothWays(Declared(p))
  {
    DeclaredRoutable(p, lib);
    RepeatsKept(Declared(p));
    RepeatsMeans(Declared(p));
  }

  /** Such a payload: two routes to the pool on `/a`. */
  lemma AcceptedButRefused(p: Payload, lib: Library)
    requires p.upstreams != []
    requires p.locations == [LocationSpec("", "/a", "", None), LocationSpec("^~", "/a", "", None)]
    ensures LocationsOk(p, lib) && Repeats(Ordered(p))
  {
    var a, b := p.locations[0], p.locations[1];
    KeyDeterminesLocation(a, b);
    ShortPathOk(a.path);
    assert LocationOk(a, lib) && LocationOk(b, lib);
    assert a in Declared(p) && b in Declared(p);
    RefusedExactly(p, lib);
  }

  lemma ShortPathOk(path: string)
    requires path == "/a"
    ensures LocPathOk(path) && !Contains(path, "..") && !Contains(path, "//") && !HasControl(path)
  {
    assert path[1..] == "a" && "a"[1..] == "";
    assert !HasPrefix("a", "..") && !HasPrefix("a", "//");
    DiffersAt(path, "..", 0);
    DiffersAt(path, "//", 1);
    assert !Contains("", "..") && !Contains("", "//");
  }
}
