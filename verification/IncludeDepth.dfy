/** When the depth guard of the walk does no harm, and a tree where it does. */
module IncludeDepth {
  import opened Text
  import opened ConfTree

  // ---- short chains are enough ----

  /** Readable files, none twice, each included by the one before. */
  ghost predicate IsChain(tree: Tree, root: string, c: seq<string>) {
    && c != [] && c[0] == root
    && (forall i :: 0 <= i < |c| ==> c[i] in tree.files)
    && (forall i, j :: 0 <= i < j < |c| ==> c[i] != c[j])
    && (forall i :: 0 < i < |c| ==> Edges(tree)(c[i - 1], c[i]))
  }

  /** No chain of readable files from the root has more than ten includes. */
  ghost predicate ShortChains(tree: Tree, root: string) {
    forall c :: IsChain(tree, root, c) ==> |c| <= MAX_INCLUDE_DEPTH + 1
  }

  /** The files being read when `path` is visited: the chain that led there. */
  ghost predicate Leads(tree: Tree, root: string, c: seq<string>, path: string) {
    if c == [] then path == root else IsChain(tree, root, c) && Edges(tree)(c[|c| - 1], path)
  }

  /** Every readable file the guard turned away had been looked at. */
  ghost predicate CutSeen(tree: Tree, w: Walk) {
    forall p :: p in w.cut && p in tree.files ==> p in w.seen
  }

  ghost predicate AllSeen(c: seq<string>, w: Walk) { forall i :: 0 <= i < |c| ==> c[i] in w.seen }

  lemma ChainGrows(tree: Tree, root: string, c: seq<string>, path: string)
    requires Leads(tree, root, c, path) && path in tree.files && path !in c
    ensures IsChain(tree, root, c + [path])
  {
    var d := c + [path];
    forall i | 0 < i < |d| ensures Edges(tree)(d[i - 1], d[i]) {
      if i < |c| { assert Edges(tree)(c[i - 1], c[i]); }
    }
  }

  lemma GuardHarmless(tree: Tree, root: string, c: seq<string>, path: string, w: Walk)
    requires ShortChains(tree, root) && Leads(tree, root, c, path) && |c| == MAX_INCLUDE_DEPTH + 1
    requires CutSeen(tree, w) && AllSeen(c, w)
    ensures CutSeen(tree, w.(cut := w.cut + {path}))
  {
    if path in tree.files && path !in c {
      ChainGrows(tree, root, c, path);
      assert false;
    }
  }

  lemma VisitCuts(tree: Tree, root: string, path: string, depth: nat, w: Walk, c: seq<string>)
    requires depth <= MAX_INCLUDE_DEPTH + 1 && |c| == depth && ShortChains(tree, root)
    requires Leads(tree, root, c, Abs(tree, path)) && AllSeen(c, w) && CutSeen(tree, w)
    ensures var v := Visit(tree, path, depth, w); CutSeen(tree, v) && w.seen <= v.seen
    decreases MAX_INCLUDE_DEPTH + 1 - depth, 0
  {
    var abs := Abs(tree, path);
    if depth > MAX_INCLUDE_DEPTH {
      GuardHarmless(tree, root, c, abs, w);
    } else if abs !in w.seen && abs in tree.files {
      var begun := w.(seen := w.seen + {abs}, out := w.out + [abs]);
      ChainGrows(tree, root, c, abs);
      ChildrenLed(tree, root, c, abs);
      VisitAllCuts(tree, root, Children(tree, abs), depth + 1, begun, c + [abs]);
    }
  }

  lemma ChildrenLed(tree: Tree, root: string, c: seq<string>, path: string)
    requires path in tree.files && IsChain(tree, root, c + [path])
    ensures forall p :: p in Children(tree, path) ==> Leads(tree, root, c + [path], Abs(tree, p))
  {
    forall p | p in Children(tree, path) ensures Leads(tree, root, c + [path], Abs(tree, p)) {
      assert Edges(tree)(path, Abs(tree, p));
    }
  }

  lemma VisitAllCuts(tree: Tree, root: string, paths: seq<string>, depth: nat, w: Walk, c: seq<string>)
    requires depth <= MAX_INCLUDE_DEPTH + 1 && |c| == depth && ShortChains(tree, root)
    requires forall p :: p in paths ==> Leads(tree, root, c, Abs(tree, p))
    requires AllSeen(c, w) && CutSeen(tree, w)
    ensures var v := VisitAll(tree, paths, depth, w); CutSeen(tree, v) && w.seen <= v.seen
    decreases MAX_INCLUDE_DEPTH + 1 - depth, |paths|
  {
    if paths != [] {
      var last := |paths| - 1;
      VisitAllCuts(tree, root, paths[..last], depth, w, c);
      VisitCuts(tree, root, paths[last], depth, VisitAll(tree, paths[..last], depth, w), c);
    }
  }

  /** When no repeat-free chain of readable files from the main file has more
      than ten includes, the walk emits every readable file the includes lead to,
      and nothing else, however the includes overlap or form cycles. */
  lemma ShortChainsComplete(tree: Tree, main: string)
    requires ShortChains(tree, Abs(tree, main))
    ensures forall p :: p in WalkFrom(tree, main).out <==> p in tree.files && Reachable(Edges(tree), Abs(tree, main), p)
  {
    VisitKeeps(tree, Abs(tree, main), main, 0, START);
    VisitCuts(tree, Abs(tree, main), main, 0, START, []);
    EmitsReachable(tree, main);
  }

  // ---- a file two includes away that is not emitted ----

  predicate IsPlain(c: char) { c == '/' || c == 'a' }

  lemma TightPath(path: string)
    requires path != "" && All(path, IsPlain)
    ensures TrimSpace(" " + (path + ";")) == path + ";" == TrimSpace(path + ";")
  {
    var text := path + ";";
    assert text[0] == path[0];
    SpanIs(" " + text, IsSpace, 1);
    assert TrimLeft(" " + text) == text;
    SpanIs(text, IsSpace, 0);
  }

  lemma PathUnquoted(path: string)
    requires path != "" && All(path, IsPlain)
    ensures TrimQuotes(path) == path && '$' !in path && NL !in path
  {
    assert IsPlain(path[0]) && IsPlain(path[|path| - 1]);
  }

  lemma SuffixOff(path: string)
    ensures TrimSuffix(path + ";", ";") == path
  {
    assert (path + ";")[|path|..] == ";";
    assert (path + ";")[..|path|] == path;
  }

  lemma LineTight(rest: string, line: string)
    requires line == "include" + rest && rest != "" && !IsSpace(rest[|rest| - 1])
    ensures TrimSpace(line) == line && After(line, "include") == Some(rest)
  {
    assert line[0] == 'i' && line[|line| - 1] == rest[|rest| - 1];
    TrimTight(line);
    AfterPrefix("include", rest);
  }

  lemma TargetIs(path: string, text: string, rest: string, line: string)
    requires TrimSpace(line) == line && After(line, "include") == Some(rest)
    requires TrimSpace(rest) == text && TrimSpace(text) == text && TrimSuffix(text, ";") == path
    requires TrimQuotes(path) == path && path != "" && '$' !in path
    ensures Target(line) == Some(path)
  {
  }

  lemma IncludeLine(path: string, line: string)
    requires path != "" && All(path, IsPlain) && line == "include" + (" " + (path + ";"))
    ensures Target(line) == Some(path)
  {
    var text, rest := path + ";", " " + (path + ";");
    assert rest[|rest| - 1] == ';';
    LineTight(rest, line);
    TightPath(path);
    SuffixOff(path);
    PathUnquoted(path);
    TargetIs(path, text, rest, line);
  }

  /** The path of the i-th file. */
  function Name(i: nat): (s: string)
    ensures |s| == i + 1
  {
    seq(i + 1, j => if j == 0 then '/' else 'a')
  }

  function IncludeOf(i: nat): string { "include" + (" " + (Name(i) + ";")) }

  /** The main file includes the first and the tenth file, and every file the next one. */
  function Body(i: nat): string {
    if i == 0 then IncludeOf(1) + [NL] + IncludeOf(10) else IncludeOf(i + 1)
  }

  function FilesUpTo(i: nat): map<string, string> {
    if i == 0 then map[Name(0) := Body(0)] else FilesUpTo(i - 1)[Name(i) := Body(i)]
  }

  function Ladder(): Tree { Tree(FilesUpTo(11), p => if p in FilesUpTo(11) then [p] else [], p => p) }

  lemma {:induction false} FilesAre(n: nat, i: nat)
    ensures Name(i) in FilesUpTo(n) <==> i <= n
    ensures i <= n ==> FilesUpTo(n)[Name(i)] == Body(i)
  {
    assert i != n ==> |Name(i)| != |Name(n)|;
    if n > 0 { FilesAre(n - 1, i); }
  }

  lemma NameIsPlain(i: nat)
    ensures All(Name(i), IsPlain) && IsAbs(Name(i))
  {
    assert Name(i)[..1] == "/";
  }

  lemma NamedIs(path: string)
    requires IsAbs(path) && path in FilesUpTo(11)
    ensures Abs(Ladder(), path) == path && Ladder().glob(path) == [path]
  {
  }

  lemma OneLineText(path: string, line: string)
    requires NL !in path && line == "include" + (" " + (path + ";"))
    ensures NL !in line
  {
  }

  lemma IncludeLeads(i: nat)
    requires i <= 11
    ensures Included(Ladder(), IncludeOf(i)) == [Name(i)] && NL !in IncludeOf(i) && Abs(Ladder(), Name(i)) == Name(i)
  {
    NameIsPlain(i);
    FilesAre(11, i);
    NamedIs(Name(i));
    PathUnquoted(Name(i));
    OneLineText(Name(i), IncludeOf(i));
    IncludeLine(Name(i), IncludeOf(i));
    IncludedIs(Ladder(), IncludeOf(i), Name(i));
  }

  lemma IncludedIs(tree: Tree, line: string, path: string)
    requires Target(line) == Some(path)
    ensures Included(tree, line) == tree.glob(Abs(tree, path))
  {
  }

  lemma OneChild(i: nat)
    requires 0 < i <= 10
    ensures Name(i) in Ladder().files && Children(Ladder(), Name(i)) == [Name(i + 1)]
  {
    var follow := Includes(Ladder());
    FilesAre(11, i);
    IncludeLeads(i + 1);
    SplitWhole(Body(i), NL);
    OneLineFollowed(IncludeOf(i + 1), follow);
  }

  lemma OneLineFollowed(line: string, follow: string -> seq<string>)
    ensures FlatMap([line], follow) == follow(line)
  {
    assert FlatMap([line], follow) == follow(line) + FlatMap([line][1..], follow);
  }

  lemma TwoLinesFollowed(a: string, b: string, follow: string -> seq<string>)
    ensures FlatMap([a] + [b], follow) == follow(a) + follow(b)
  {
    OneLineFollowed(a, follow);
    FlatMapGrow([a], b, follow);
  }

  lemma TwoChildren()
    ensures Name(0) in Ladder().files && Children(Ladder(), Name(0)) == [Name(1)] + [Name(10)]
  {
    FilesAre(11, 0);
    IncludeLeads(1);
    IncludeLeads(10);
    SplitAcross(IncludeOf(1), IncludeOf(10), NL);
    SplitWhole(IncludeOf(1), NL);
    SplitWhole(IncludeOf(10), NL);
    TwoLinesFollowed(IncludeOf(1), IncludeOf(10), Includes(Ladder()));
  }

  /** The walk after the files before the i-th. */
  function Down(i: nat): Walk {
    if i == 0 then START
    else
      var w := Down(i - 1);
      w.(seen := w.seen + {Name(i - 1)}, out := w.out + [Name(i - 1)])
  }

  lemma {:induction false} DownIs(i: nat, k: nat)
    ensures (Name(k) in Down(i).seen <==> k < i) && (Name(k) in Down(i).out <==> k < i)
  {
    if i > 0 {
      DownIs(i - 1, k);
      assert k != i - 1 ==> |Name(k)| != |Name(i - 1)|;
    }
  }

  lemma VisitOne(tree: Tree, path: string, depth: nat, w: Walk)
    requires depth <= MAX_INCLUDE_DEPTH + 1
    ensures VisitAll(tree, [path], depth, w) == Visit(tree, path, depth, w)
  {
    VisitMore(tree, [], path, depth, w);
    assert [] + [path] == [path];
  }

  /** Following the ladder from its i-th file at depth i, the guard stops at the eleventh. */
  lemma {:induction false} Descend(i: nat)
    requires 0 < i <= 11
    ensures Visit(Ladder(), Name(i), i, Down(i)) == Down(11).(cut := {Name(11)})
    decreases 11 - i
  {
    IncludeLeads(i);
    if i == 11 {
      assert Down(11).cut == {} by { DownCutsNothing(11); }
    } else {
      OneChild(i);
      DownIs(i, i);
      VisitOne(Ladder(), Name(i + 1), i + 1, Down(i + 1));
      Descend(i + 1);
    }
  }

  lemma {:induction false} DownCutsNothing(i: nat)
    ensures Down(i).cut == {}
  {
    if i > 0 { DownCutsNothing(i - 1); }
  }

  /** The eleventh file is readable and two includes from the main file, and yet
      it is not emitted: the tenth was first reached by the long way, at the full depth. */
  lemma ReachableNotEmitted()
    ensures var tree, main, lost := Ladder(), Name(0), Name(11);
      && lost in tree.files && Within(Edges(tree), main, lost, 2) && Abs(tree, main) == main
      && lost !in WalkFrom(tree, main).out
  {
    var tree, end := Ladder(), Down(11).(cut := {Name(11)});
    IncludeLeads(0);
    TwoChildren();
    Descend(1);
    VisitOne(tree, Name(1), 1, Down(1));
    VisitMore(tree, [Name(1)], Name(10), 1, Down(1));
    IncludeLeads(10);
    DownIs(11, 10);
    assert WalkFrom(tree, Name(0)) == end;
    DownIs(11, 11);
    FilesAre(11, 11);
    ByShortWay();
  }

  lemma ByShortWay()
    ensures Within(Edges(Ladder()), Name(0), Name(11), 2)
  {
    var edge := Edges(Ladder());
    TwoChildren();
    OneChild(10);
    IncludeLeads(10);
    IncludeLeads(11);
    assert edge(Name(0), Name(10)) by { assert Name(10) in Children(Ladder(), Name(0)); }
    assert edge(Name(10), Name(11)) by { assert Name(11) in Children(Ladder(), Name(10)); }
    assert Within(edge, Name(0), Name(0), 0);
    WithinStep(edge, Name(0), Name(0), Name(10), 0);
    WithinStep(edge, Name(0), Name(10), Name(11), 1);
  }
}
