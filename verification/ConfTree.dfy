/** Assembling a dump by reading the main file and following its includes. */
module ConfTree {
  import opened Text
  import opened Dump
  import opened Sections
  import opened ConfDir

  /** The file system as the walk sees it: the readable files, the matches of a
      pattern in sorted order (none when the pattern is malformed), and
      `filepath.Join` with the directory of the main file. */
  datatype Tree = Tree(files: map<string, string>, glob: string -> seq<string>, join: string -> string)

  const MAX_INCLUDE_DEPTH := 10

  predicate IsAbs(path: string) { HasPrefix(path, "/") }

  function Abs(tree: Tree, path: string): string { if IsAbs(path) then path else tree.join(path) }

  predicate IsQuote(c: char) { c == '"' || c == '\'' }

  function TrimQuotes(s: string): string
    decreases |s|
  {
    if s == "" then ""
    else if IsQuote(s[0]) then TrimQuotes(s[1..])
    else if IsQuote(s[|s| - 1]) then TrimQuotes(s[..|s| - 1])
    else s
  }

  function TrimSuffix(s: string, suffix: string): string {
    if HasSuffix(s, suffix) then s[..|s| - |suffix|] else s
  }

  /** The pattern an include line names. A variable in it is not resolved. */
  function Target(line: string): Option<string> {
    var rest :- After(TrimSpace(line), "include");
    var target := TrimQuotes(TrimSuffix(TrimSpace(TrimSpace(rest)), ";"));
    if target == "" || '$' in target then None else Some(target)
  }

  function Included(tree: Tree, line: string): seq<string> {
    match Target(line)
    case None => []
    case Some(target) => tree.glob(Abs(tree, target))
  }

  function Includes(tree: Tree): string -> seq<string> { line => Included(tree, line) }

  /** What the lines of a file include, in the order of the walk. */
  function Children(tree: Tree, path: string): seq<string>
    requires path in tree.files
  {
    FlatMap(Lines(tree.files[path]), Includes(tree))
  }

  // ---- the walk ----

  /** What has been looked at, what has been emitted, and what the depth guard turned away. */
  datatype Walk = Walk(seen: set<string>, out: seq<string>, cut: set<string>)

  const START := Walk({}, [], {})

  function Visit(tree: Tree, path: string, depth: nat, w: Walk): Walk
    requires depth <= MAX_INCLUDE_DEPTH + 1
    decreases MAX_INCLUDE_DEPTH + 1 - depth, 0
  {
    var abs := Abs(tree, path);
    if depth > MAX_INCLUDE_DEPTH then w.(cut := w.cut + {abs})
    else if abs in w.seen then w
    else if abs !in tree.files then w.(seen := w.seen + {abs})
    else VisitAll(tree, Children(tree, abs), depth + 1, w.(seen := w.seen + {abs}, out := w.out + [abs]))
  }

  function VisitAll(tree: Tree, paths: seq<string>, depth: nat, w: Walk): Walk
    requires depth <= MAX_INCLUDE_DEPTH + 1
    decreases MAX_INCLUDE_DEPTH + 1 - depth, |paths|
  {
    if paths == [] then w
    else Visit(tree, paths[|paths| - 1], depth, VisitAll(tree, paths[..|paths| - 1], depth, w))
  }

  function WalkFrom(tree: Tree, main: string): Walk { Visit(tree, main, 0, START) }

  lemma VisitMore(tree: Tree, before: seq<string>, path: string, depth: nat, w: Walk)
    requires depth <= MAX_INCLUDE_DEPTH + 1
    ensures VisitAll(tree, before + [path], depth, w) == Visit(tree, path, depth, VisitAll(tree, before, depth, w))
  {
    var all := before + [path];
    assert all[..|all| - 1] == before && all[|all| - 1] == path;
  }

  // ---- what is written ----

  /** A body, with a line break at its end unless it is empty. */
  function Terminated(body: string): string {
    if body != "" && body[|body| - 1] != NL then body + [NL] else body
  }

  function TreeFileText(f: LoadedFile): string { MarkerLine(f.path) + [NL] + Terminated(f.content) }

  function TreeText(files: seq<LoadedFile>): string { FlatMap(files, TreeFileText) }

  function Load(tree: Tree): string -> LoadedFile {
    path => LoadedFile(path, if path in tree.files then tree.files[path] else "")
  }

  function Loaded(tree: Tree, paths: seq<string>): seq<LoadedFile> { Map(paths, Load(tree)) }

  class ConfReader {
    const tree: Tree
    var seen: set<string>
    var text: string
    ghost var walk: Walk

    ghost predicate Valid()
      reads this
    {
      seen == walk.seen && text == TreeText(Loaded(tree, walk.out))
    }

    constructor (tree: Tree)
      ensures Valid() && this.tree == tree && walk == START
    {
      this.tree, seen, text, walk := tree, {}, "", START;
    }

    method Emit(path: string, body: string)
      requires Valid() && path in tree.files && tree.files[path] == body
      modifies this`text, this`walk
      ensures Valid() && walk == old(walk).(out := old(walk).out + [path])
    {
      MapGrow(walk.out, path, Load(tree));
      FlatMapGrow(Loaded(tree, walk.out), LoadedFile(path, body), TreeFileText);
      text := text + (MarkerLine(path) + [NL] + Terminated(body));
      walk := walk.(out := walk.out + [path]);
    }

    /** `appendConf`. */
    method AppendConf(path: string, depth: nat) returns (ok: bool)
      requires Valid() && depth <= MAX_INCLUDE_DEPTH + 1
      modifies this
      ensures Valid() && walk == Visit(tree, path, depth, old(walk))
      ensures ok <==> depth > MAX_INCLUDE_DEPTH || Abs(tree, path) in old(seen) || Abs(tree, path) in tree.files
      decreases MAX_INCLUDE_DEPTH + 1 - depth, 0
    {
      var abs := if IsAbs(path) then path else tree.join(path);
      if depth > MAX_INCLUDE_DEPTH {
        walk := walk.(cut := walk.cut + {abs});
        return true;
      }
      if abs in seen { return true; }
      seen, walk := seen + {abs}, walk.(seen := walk.seen + {abs});
      if abs !in tree.files { return false; }
      var body := tree.files[abs];
      Emit(abs, body);
      FollowIncludes(body, depth);
      return true;
    }

    method FollowIncludes(body: string, depth: nat)
      requires Valid() && depth <= MAX_INCLUDE_DEPTH
      modifies this
      ensures Valid() && walk == VisitAll(tree, FlatMap(Lines(body), Includes(tree)), depth + 1, old(walk))
      decreases MAX_INCLUDE_DEPTH - depth, 4
    {
      var lines := Lines(body);
      ghost var start, includes := walk, Includes(tree);
      for i := 0 to |lines|
        invariant Valid() && walk == VisitAll(tree, FlatMap(lines[..i], includes), depth + 1, start)
      {
        FlatMapSnoc(lines, i, includes);
        FollowLine(lines[i], depth, FlatMap(lines[..i], includes), start);
      }
      assert lines[..|lines|] == lines;
    }

    method FollowLine(line: string, depth: nat, ghost before: seq<string>, ghost start: Walk)
      requires Valid() && depth <= MAX_INCLUDE_DEPTH
      requires walk == VisitAll(tree, before, depth + 1, start)
      modifies this
      ensures Valid() && walk == VisitAll(tree, before + Included(tree, line), depth + 1, start)
      decreases MAX_INCLUDE_DEPTH - depth, 3
    {
      var target := Target(line);
      if target == None {
        assert before + [] == before;
      } else {
        FollowMatches(tree.glob(Abs(tree, target.value)), depth, before, start);
      }
    }

    method FollowOne(path: string, depth: nat, ghost before: seq<string>, ghost start: Walk)
      requires Valid() && depth <= MAX_INCLUDE_DEPTH
      requires walk == VisitAll(tree, before, depth + 1, start)
      modifies this
      ensures Valid() && walk == VisitAll(tree, before + [path], depth + 1, start)
      decreases MAX_INCLUDE_DEPTH - depth, 1
    {
      VisitMore(tree, before, path, depth + 1, start);
      var _ := AppendConf(path, depth + 1);
    }

    method FollowMatches(matches: seq<string>, depth: nat, ghost before: seq<string>, ghost start: Walk)
      requires Valid() && depth <= MAX_INCLUDE_DEPTH
      requires walk == VisitAll(tree, before, depth + 1, start)
      modifies this
      ensures Valid() && walk == VisitAll(tree, before + matches, depth + 1, start)
      decreases MAX_INCLUDE_DEPTH - depth, 2
    {
      NoneYet(before, matches);
      for j := 0 to |matches|
        invariant Valid() && walk == VisitAll(tree, before + matches[..j], depth + 1, start)
      {
        OneMorePath(before, matches, j);
        FollowOne(matches[j], depth, before + matches[..j], start);
      }
      AllOf(before, matches);
    }
  }

  lemma OneMorePath(before: seq<string>, paths: seq<string>, j: nat)
    requires j < |paths|
    ensures before + paths[..j + 1] == before + paths[..j] + [paths[j]]
  {
  }

  lemma NoneYet(before: seq<string>, paths: seq<string>)
    ensures before + paths[..0] == before
  {
  }

  lemma AllOf(before: seq<string>, paths: seq<string>)
    ensures before + paths[..|paths|] == before + paths
  {
  }

  /** `ReadConfTree`, whose only error is an unreadable main file. */
  method ReadConfTree(tree: Tree, mainPath: string) returns (text: string, ok: bool)
    ensures var main := if mainPath == "" then "/etc/nginx/nginx.conf" else mainPath;
      && text == TreeText(Loaded(tree, WalkFrom(tree, main).out))
      && (ok <==> Abs(tree, main) in tree.files)
  {
    var main := if mainPath == "" then "/etc/nginx/nginx.conf" else mainPath;
    var reader := new ConfReader(tree);
    ok := reader.AppendConf(main, 0);
    text := reader.text;
  }

  // ---- the include graph ----

  /** The files a file includes. */
  function Next(tree: Tree, path: string): set<string>
    requires path in tree.files
  {
    set c | c in Children(tree, path) :: Abs(tree, c)
  }

  /** From a readable file to a file it includes. */
  function Edges(tree: Tree): (string, string) -> bool {
    (q, p) => q in tree.files && p in Next(tree, q)
  }

  /** `path` can be reached from `root` along at most `n` edges. */
  ghost predicate Within(edge: (string, string) -> bool, root: string, path: string, n: nat)
    decreases n
  {
    path == root || (n > 0 && exists q :: Within(edge, root, q, n - 1) && edge(q, path))
  }

  ghost predicate Reachable(edge: (string, string) -> bool, root: string, path: string) {
    exists n: nat :: Within(edge, root, path, n)
  }

  lemma {:induction false} WithinMore(edge: (string, string) -> bool, root: string, path: string, n: nat)
    requires Within(edge, root, path, n)
    ensures Within(edge, root, path, n + 1)
    decreases n
  {
    if path != root {
      var q :| Within(edge, root, q, n - 1) && edge(q, path);
      WithinMore(edge, root, q, n - 1);
    }
  }

  lemma {:induction false} WithinLater(edge: (string, string) -> bool, root: string, path: string, n: nat, m: nat)
    requires n <= m && Within(edge, root, path, n)
    ensures Within(edge, root, path, m)
    decreases m - n
  {
    if n < m {
      WithinMore(edge, root, path, n);
      WithinLater(edge, root, path, n + 1, m);
    }
  }

  lemma WithinStep(edge: (string, string) -> bool, root: string, q: string, path: string, n: nat)
    requires Within(edge, root, q, n) && edge(q, path)
    ensures Within(edge, root, path, n + 1)
  {
    assert Within(edge, root, q, n + 1 - 1);
  }

  // ---- what a walk keeps ----

  /** Each path emitted once, and emitted exactly when looked at and readable. */
  ghost predicate Tidy(tree: Tree, w: Walk) {
    && (forall i, j :: 0 <= i < j < |w.out| ==> w.out[i] != w.out[j])
    && (forall p :: p in w.out <==> p in w.seen && p in tree.files)
  }

  /** Nothing is emitted, or turned away, that the includes do not lead to. */
  ghost predicate Near(tree: Tree, root: string, w: Walk) {
    && (forall p :: p in w.out ==> Within(Edges(tree), root, p, MAX_INCLUDE_DEPTH))
    && (forall p :: p in w.cut ==> Within(Edges(tree), root, p, MAX_INCLUDE_DEPTH + 1))
  }

  ghost predicate Grows(w: Walk, v: Walk) { w.seen <= v.seen && w.out <= v.out && w.cut <= v.cut }

  ghost predicate Covered(tree: Tree, path: string, v: Walk) {
    path in tree.files ==> Next(tree, path) <= v.seen + v.cut
  }

  /** Whatever was emitted in between has had its includes looked at or turned away. */
  ghost predicate Finished(tree: Tree, w: Walk, v: Walk) {
    forall p :: p in v.out && p !in w.out ==> Covered(tree, p, v)
  }

  lemma FinishedThen(tree: Tree, u: Walk, v: Walk, w: Walk)
    requires Grows(u, v) && Grows(v, w) && Finished(tree, u, v) && Finished(tree, v, w)
    ensures Grows(u, w) && Finished(tree, u, w)
  {
    forall p | p in w.out && p !in u.out ensures Covered(tree, p, w) {
      if p in v.out { assert Covered(tree, p, v); }
    }
  }

  lemma BeginKeeps(tree: Tree, root: string, abs: string, depth: nat, w: Walk)
    requires depth <= MAX_INCLUDE_DEPTH && Within(Edges(tree), root, abs, depth)
    requires Tidy(tree, w) && Near(tree, root, w) && abs !in w.seen && abs in tree.files
    ensures var v := w.(seen := w.seen + {abs}, out := w.out + [abs]); Tidy(tree, v) && Near(tree, root, v)
  {
    WithinLater(Edges(tree), root, abs, depth, MAX_INCLUDE_DEPTH);
    var v := w.(seen := w.seen + {abs}, out := w.out + [abs]);
    assert forall p :: p in v.out <==> p in w.out || p == abs;
  }

  /** Nothing new emitted: at most a path looked at that is not readable, or one turned away. */
  lemma IdleKeeps(tree: Tree, root: string, w: Walk, v: Walk)
    requires Tidy(tree, w) && Near(tree, root, w) && Grows(w, v) && v.out == w.out
    requires forall p :: p in v.seen && p !in w.seen ==> p !in tree.files
    requires forall p :: p in v.cut && p !in w.cut ==> Within(Edges(tree), root, p, MAX_INCLUDE_DEPTH + 1)
    ensures Tidy(tree, v) && Near(tree, root, v) && Finished(tree, w, v)
  {
  }

  lemma ChildrenWithin(tree: Tree, root: string, abs: string, depth: nat)
    requires abs in tree.files && Within(Edges(tree), root, abs, depth)
    ensures forall c :: c in Children(tree, abs) ==> Within(Edges(tree), root, Abs(tree, c), depth + 1)
  {
    forall c | c in Children(tree, abs) ensures Within(Edges(tree), root, Abs(tree, c), depth + 1) {
      assert Edges(tree)(abs, Abs(tree, c));
      WithinStep(Edges(tree), root, abs, Abs(tree, c), depth);
    }
  }

  lemma VisitKeeps(tree: Tree, root: string, path: string, depth: nat, w: Walk)
    requires depth <= MAX_INCLUDE_DEPTH + 1 && Within(Edges(tree), root, Abs(tree, path), depth)
    requires Tidy(tree, w) && Near(tree, root, w)
    ensures var v := Visit(tree, path, depth, w);
      && Tidy(tree, v) && Near(tree, root, v) && Grows(w, v) && Finished(tree, w, v)
      && Abs(tree, path) in v.seen + v.cut
    decreases MAX_INCLUDE_DEPTH + 1 - depth, 0
  {
    var abs, v := Abs(tree, path), Visit(tree, path, depth, w);
    if depth <= MAX_INCLUDE_DEPTH && abs !in w.seen && abs in tree.files {
      var begun := w.(seen := w.seen + {abs}, out := w.out + [abs]);
      BeginKeeps(tree, root, abs, depth, w);
      ChildrenWithin(tree, root, abs, depth);
      VisitAllKeeps(tree, root, Children(tree, abs), depth + 1, begun);
      BegunFinishes(tree, w, begun, v, abs);
    } else {
      IdleVisit(tree, root, path, depth, w);
    }
  }

  lemma IdleVisit(tree: Tree, root: string, path: string, depth: nat, w: Walk)
    requires depth <= MAX_INCLUDE_DEPTH + 1 && Within(Edges(tree), root, Abs(tree, path), depth)
    requires Tidy(tree, w) && Near(tree, root, w)
    requires depth > MAX_INCLUDE_DEPTH || Abs(tree, path) in w.seen || Abs(tree, path) !in tree.files
    ensures var v := Visit(tree, path, depth, w);
      && Tidy(tree, v) && Near(tree, root, v) && Grows(w, v) && Finished(tree, w, v)
      && Abs(tree, path) in v.seen + v.cut
  {
    IdleKeeps(tree, root, w, Visit(tree, path, depth, w));
  }

  lemma BegunFinishes(tree: Tree, w: Walk, begun: Walk, v: Walk, abs: string)
    requires abs in tree.files && begun == w.(seen := w.seen + {abs}, out := w.out + [abs])
    requires Grows(begun, v) && Finished(tree, begun, v)
    requires forall c :: c in Children(tree, abs) ==> Abs(tree, c) in v.seen + v.cut
    ensures Grows(w, v) && Finished(tree, w, v)
  {
    assert Covered(tree, abs, v);
    assert w.out <= begun.out;
  }

  lemma VisitAllKeeps(tree: Tree, root: string, paths: seq<string>, depth: nat, w: Walk)
    requires depth <= MAX_INCLUDE_DEPTH + 1 && forall p :: p in paths ==> Within(Edges(tree), root, Abs(tree, p), depth)
    requires Tidy(tree, w) && Near(tree, root, w)
    ensures var v := VisitAll(tree, paths, depth, w);
      && Tidy(tree, v) && Near(tree, root, v) && Grows(w, v) && Finished(tree, w, v)
      && forall p :: p in paths ==> Abs(tree, p) in v.seen + v.cut
    decreases MAX_INCLUDE_DEPTH + 1 - depth, |paths|
  {
    if paths != [] {
      var last := |paths| - 1;
      var mid := VisitAll(tree, paths[..last], depth, w);
      VisitAllKeeps(tree, root, paths[..last], depth, w);
      VisitKeeps(tree, root, paths[last], depth, mid);
      FinishedThen(tree, w, mid, Visit(tree, paths[last], depth, mid));
    }
  }

  // ---- the results ----

  /** No path is emitted twice, and every emitted path is a readable file that at most ten includes lead to. */
  lemma EmitsOnceNearby(tree: Tree, main: string)
    ensures var out := WalkFrom(tree, main).out;
      && (forall i, j :: 0 <= i < j < |out| ==> out[i] != out[j])
      && (forall p :: p in out ==> p in tree.files && Within(Edges(tree), Abs(tree, main), p, MAX_INCLUDE_DEPTH))
  {
    VisitKeeps(tree, Abs(tree, main), main, 0, START);
  }

  lemma {:induction false} ClosedReaches(edge: (string, string) -> bool, root: string, path: string, n: nat,
                                         closed: set<string>)
    requires root in closed && forall p, q :: p in closed && edge(p, q) ==> q in closed
    requires Within(edge, root, path, n)
    ensures path in closed
    decreases n
  {
    if path != root {
      var q :| Within(edge, root, q, n - 1) && edge(q, path);
      ClosedReaches(edge, root, q, n - 1, closed);
    }
  }

  lemma CutIsEmitted(tree: Tree, main: string, w: Walk)
    requires w == WalkFrom(tree, main) && forall p :: p in w.cut && p in tree.files ==> p in w.out
    ensures forall p :: p in tree.files && Reachable(Edges(tree), Abs(tree, main), p) ==> p in w.out
  {
    var root, edge, closed := Abs(tree, main), Edges(tree), w.seen + w.cut;
    VisitKeeps(tree, root, main, 0, START);
    forall p, q | p in closed && edge(p, q) ensures q in closed {
      assert Covered(tree, p, w);
    }
    forall p | p in tree.files && Reachable(edge, root, p) ensures p in w.out {
      var n: nat :| Within(edge, root, p, n);
      ClosedReaches(edge, root, p, n, closed);
    }
  }

  /** The walk emits exactly the readable files reachable through readable files,
      cycles or not, if and only if every readable file the depth guard turned
      away somewhere was emitted elsewhere. */
  lemma EmitsReachable(tree: Tree, main: string)
    ensures var w := WalkFrom(tree, main);
      (forall p :: p in w.out <==> p in tree.files && Reachable(Edges(tree), Abs(tree, main), p))
      <==> forall p :: p in w.cut && p in tree.files ==> p in w.out
  {
    var w, root := WalkFrom(tree, main), Abs(tree, main);
    VisitKeeps(tree, root, main, 0, START);
    if forall p :: p in w.cut && p in tree.files ==> p in w.out {
      CutIsEmitted(tree, main, w);
    }
  }

  // ---- reading it back ----

  /** The lines of a file as the walk prints them. */
  function TreeBody(content: string): seq<string> {
    if content == "" then []
    else if content[|content| - 1] == NL then Lines(content[..|content| - 1])
    else Lines(content)
  }

  function TreeSection(f: LoadedFile): Section<string> { Section(f.path, TreeBody(f.content)) }

  function TreeLines(f: LoadedFile): seq<string> { [MarkerLine(f.path)] + TreeBody(f.content) }

  lemma BodyLines(content: string)
    ensures content == "" || content[|content| - 1] == NL ==> Lines(content) == TreeBody(content) + [""]
  {
    EmptyLine();
    if content != "" && content[|content| - 1] == NL {
      var body := content[..|content| - 1];
      assert content == body + [NL] + "";
      SplitAcross(body, "", NL);
    }
  }

  lemma TreeSectionBlock(f: LoadedFile)
    ensures BlockOf(TreeSection(f)) == BlockOfFile(f)
  {
    BodyLines(f.content);
    TrailingBlank(TreeSection(f));
  }

  lemma TreeFileLines(f: LoadedFile)
    requires Separable(f)
    ensures Lines(TreeFileText(f)) == TreeLines(f) + [""]
  {
    if f.content == "" {
      EmptyFileLines(f.path);
    } else if f.content[|f.content| - 1] == NL {
      var body := f.content[..|f.content| - 1];
      BodyLines(f.content);
      assert Lines(body) == Lines(f.content)[..|Lines(body)|];
      FileLines(LoadedFile(f.path, body));
      assert f.content == body + [NL];
      SameText(MarkerLine(f.path), f.content, body);
    } else {
      FileLines(f);
      SameText(MarkerLine(f.path), f.content + [NL], f.content);
    }
  }

  lemma SameText(mark: string, text: string, body: string)
    requires text == body + [NL]
    ensures mark + [NL] + body + [NL] == mark + [NL] + text
  {
  }

  lemma EmptyFileLines(path: string)
    requires path != "" && NL !in path
    ensures Lines(MarkerLine(path) + [NL] + "") == [MarkerLine(path)] + [] + [""]
  {
    EmptyLine();
    MarkerLineIs(path);
    SplitJoin([MarkerLine(path)], NL);
    SplitAcross(MarkerLine(path), "", NL);
  }

  lemma {:induction false} LinesOfAll(files: seq<LoadedFile>, text: LoadedFile -> string,
                                      lines: LoadedFile -> seq<string>)
    requires forall f :: f in files ==> Lines(text(f)) == lines(f) + [""]
    ensures Lines(FlatMap(files, text)) == FlatMap(files, lines) + [""]
  {
    if files == [] {
      EmptyLine();
    } else {
      LinesOfAll(files[1..], text, lines);
      LinesAfterBreak(text(files[0]), FlatMap(files[1..], text), lines(files[0]));
    }
  }

  lemma {:induction false} CutAll(before: seq<string>, files: seq<LoadedFile>)
    requires Every(files, SeparableTree)
    ensures Cut(before + FlatMap(files, TreeLines), MarkerOf) == Cut(before, MarkerOf) + Map(files, TreeSection)
    decreases |files|
  {
    if files == [] {
      assert before + [] == before;
    } else {
      CutOne(before, files[0]);
      CutAll(before + TreeLines(files[0]), files[1..]);
      HeadTail(files);
      MapHead(files, TreeSection);
      Associative(before, TreeLines(files[0]), FlatMap(files[1..], TreeLines));
      Associative(Cut(before, MarkerOf), [TreeSection(files[0])], Map(files[1..], TreeSection));
    }
  }

  lemma MapHead<A, B>(s: seq<A>, f: A -> B)
    requires s != []
    ensures Map(s, f) == [f(s[0])] + Map(s[1..], f)
  {
  }

  ghost predicate SeparableTree(f: LoadedFile) { f.path != "" && NL !in f.path && Unmarked(TreeBody(f.content)) }

  lemma SeparableEither(f: LoadedFile)
    requires Separable(f)
    ensures SeparableTree(f)
  {
    BodyLines(f.content);
    assert forall i :: 0 <= i < |TreeBody(f.content)| ==> TreeBody(f.content)[i] == Lines(f.content)[i];
  }

  lemma CutOne(before: seq<string>, f: LoadedFile)
    requires SeparableTree(f)
    ensures Cut(before + TreeLines(f), MarkerOf) == Cut(before, MarkerOf) + [TreeSection(f)]
  {
    MarkerLineIs(f.path);
    OneMore(before, MarkerLine(f.path), TreeBody(f.content), f.path, MarkerOf);
    Associative(before, [MarkerLine(f.path)], TreeBody(f.content));
  }

  lemma BlocksEither(files: seq<LoadedFile>)
    ensures BlocksOf(Map(files, TreeSection)) == BlocksOfFiles(files)
  {
    forall i | 0 <= i < |files| ensures BlockOf(TreeSection(files[i])) == BlockOfFile(files[i]) {
      TreeSectionBlock(files[i]);
    }
  }

  lemma LinesOfTree(files: seq<LoadedFile>)
    requires Every(files, Separable)
    ensures Lines(TreeText(files)) == FlatMap(files, TreeLines) + [""]
  {
    forall f | f in files ensures Lines(TreeFileText(f)) == TreeLines(f) + [""] {
      var i :| 0 <= i < |files| && files[i] == f;
      TreeFileLines(files[i]);
    }
    LinesOfAll(files, TreeFileText, TreeLines);
  }

  lemma CutTree(files: seq<LoadedFile>)
    requires Every(files, Separable)
    ensures Cut(FlatMap(files, TreeLines), MarkerOf) == Map(files, TreeSection)
  {
    forall i | 0 <= i < |files| ensures SeparableTree(files[i]) { SeparableEither(files[i]); }
    CutAll([], files);
    assert [] + FlatMap(files, TreeLines) == FlatMap(files, TreeLines);
    assert [] + Map(files, TreeSection) == Map(files, TreeSection);
  }

  /** Everything downstream reads the assembled text and the dump nginx prints of
      the same files alike, although the two end their files differently. */
  lemma TreeReadsAsDump(files: seq<LoadedFile>)
    requires Every(files, Separable)
    ensures Blocks(TreeText(files)) == BlocksOfFiles(files) == Blocks(DumpText(files))
  {
    LinesOfTree(files);
    IgnoresLastBlank(FlatMap(files, TreeLines));
    CutTree(files);
    BlocksEither(files);
    BlocksOfDump(files);
  }
}
