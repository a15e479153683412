/** What the panel is told about the pools of a dump. One pass over the lines,
    with just enough nesting to know which block a line is in. */
module Inventory {
  import opened Text
  import opened Dump
  import opened Manifest
  import PoolToggle

  datatype PoolServer = PoolServer(host: string, port: nat, raw: string, down: bool)

  datatype Pool = Pool(name: string, file: string, managed: bool, servers: seq<PoolServer>, down: bool)

  // ---- the patterns ----

  /** `^upstream\s+(\S+)\s*\{`: the longest name that a brace follows. */
  function UpstreamName(line: string): Option<string> {
    var rest :- After(line, "upstream");
    if Span(rest, IsReSpace) == 0 then None else NameBeforeBrace(SkipRe(rest))
  }

  function NameBeforeBrace(s: string): Option<string> {
    var run := s[..Span(s, NotReSpace)];
    if run == "" then None
    else if HasPrefix(SkipRe(s[|run|..]), "{") then Some(run)
    else
      var k := LastIndexOf(run, '{');
      if 0 < k < |run| then Some(run[..k]) else None
  }

  /** `^server\s*\{` */
  predicate OpensVhost(line: string) {
    match After(line, "server")
    case None => false
    case Some(rest) => HasPrefix(SkipRe(rest), "{")
  }

  /** `\S+\s*\{` at the head. */
  predicate PathThenBrace(s: string) {
    var n := Span(s, NotReSpace);
    n > 0 && ('{' in s[1..n] || HasPrefix(SkipRe(s[n..]), "{"))
  }

  predicate MatcherThenPath(s: string, matcher: string) {
    match After(s, matcher)
    case None => false
    case Some(rest) => Span(rest, IsReSpace) > 0 && PathThenBrace(SkipRe(rest))
  }

  /** `^location\s+(?:(=|~\*|~|\^~)\s+)?(\S+)\s*\{` */
  predicate OpensLocation(line: string) {
    match After(line, "location")
    case None => false
    case Some(rest) =>
      var s := SkipRe(rest);
      Span(rest, IsReSpace) > 0
      && (PathThenBrace(s) || MatcherThenPath(s, "=") || MatcherThenPath(s, "~*") || MatcherThenPath(s, "~") ||
        MatcherThenPath(s, "^~"))
  }

  /** The first colon, not at the head, that a digit follows. */
  function ColonBeforeDigit(s: string, k: nat): (r: nat)
    requires k <= |s|
    ensures k <= r <= |s|
    ensures r < |s| ==> r + 1 < |s| && s[r] == ':' && IsDigit(s[r + 1])
    decreases |s| - k
  {
    if k + 1 >= |s| then |s|
    else if s[k] == ':' && IsDigit(s[k + 1]) then k
    else ColonBeforeDigit(s, k + 1)
  }

  const MAX_INT := 0x7FFF_FFFF_FFFF_FFFF

  /** `strconv.Atoi` on digits, its error dropped. */
  function Port(digits: string): nat
    requires All(digits, IsDigit)
  {
    if Value(digits) > MAX_INT then MAX_INT else Value(digits)
  }

  /** `^server\s+([^\s;]+?):(\d+)\s*([^;]*);` */
  function Backend(line: string): Option<PoolServer> {
    var rest :- After(line, "server");
    var semi := IndexOf(rest, ';');
    if semi == |rest| || Span(rest[..semi], IsReSpace) == 0 then None else BackendIn(SkipRe(rest[..semi]))
  }

  function BackendIn(s: string): Option<PoolServer> {
    var run := s[..Span(s, NotReSpace)];
    if run == "" then None
    else
      var k := ColonBeforeDigit(run, 1);
      if k == |run| then None
      else
        var n := Span(s[k + 1..], IsDigit);
        SpanHolds(s[k + 1..], IsDigit);
        var raw := TrimSpace(s[k + 1 + n..]);
        Some(PoolServer(run[..k], Port(s[k + 1..][..n]), raw, PoolToggle.HasDown(raw)))
  }

  /** What follows the first brace, trimmed. */
  function AfterBrace(line: string): string {
    var i := IndexOf(line, '{');
    if i == |line| then "" else TrimSpace(line[i + 1..])
  }

  function Count(s: string, c: char): nat {
    if s == "" then 0 else (if s[0] == c then 1 else 0) + Count(s[1..], c)
  }

  // ---- the scanner ----

  /** Where the scanner is: the file, the nesting, and the block being read. */
  datatype Ctl = Ctl(file: string, managed: bool, depth: int, pool: Option<Pool>, vhost: bool, loc: bool, locDepth: int)

  const START := Ctl("", false, 0, None, false, false, 0)

  /** Disabled when every backend is; without backends it is empty, not disabled. */
  predicate AllDown(servers: seq<PoolServer>) {
    servers != [] && forall i :: 0 <= i < |servers| ==> servers[i].down
  }

  function Closed(p: Pool): Pool { p.(down := AllDown(p.servers)) }

  /** What a line says to the scanner: its braces, the backend it names, and
      whether it opens a location, with what follows its brace. */
  datatype LineFacts = LineFacts(opens: nat, closes: nat, backend: Option<PoolServer>, location: bool, rest: string)

  function FactsOf(line: string): LineFacts {
    LineFacts(Count(line, '{'), Count(line, '}'), Backend(line), OpensLocation(line), AfterBrace(line))
  }

  function InPool(c: Ctl, p: Pool, backend: Option<PoolServer>): (Ctl, seq<Pool>) {
    var q := if backend == None then p else p.(servers := p.servers + [backend.value]);
    if c.depth <= 0 then (c.(pool := None, depth := 0), [Closed(q)]) else (c.(pool := Some(q)), [])
  }

  function InVhost(c: Ctl, opens: bool, rest: string): Ctl {
    if c.loc then (if c.depth <= c.locDepth then c.(loc := false) else c)
    else
      var d := if opens then c.(loc := !(rest != "" && '}' in rest), locDepth := c.depth - 1) else c;
      if d.depth <= 0 then d.(vhost := false, depth := 0) else d
  }

  function Inside(c: Ctl, f: LineFacts): (Ctl, seq<Pool>) {
    var d := c.(depth := c.depth + f.opens - f.closes);
    match d.pool
    case Some(p) => InPool(d, p, f.backend)
    case None => (InVhost(d, f.location, f.rest), [])
  }

  function Opening(c: Ctl, line: string): (Ctl, seq<Pool>) {
    var name := UpstreamName(line);
    if name == None && !OpensVhost(line) then (c, [])
    else
      var d := if name != None then c.(depth := 1, pool := Some(Pool(name.value, c.file, c.managed, [], false)))
               else c.(depth := 1, vhost := true);
      var rest := AfterBrace(line);
      if rest == "" then (d, []) else Inside(d, FactsOf(rest))
  }

  predicate Outside(c: Ctl) { c.pool == None && !c.vhost }

  predicate IsComment(line: string) { HasPrefix(line, "#") }

  /** One line. */
  function Step(c: Ctl, raw: string): (Ctl, seq<Pool>) {
    var line := TrimSpace(raw);
    if Marker(line) != None then (Ctl(Marker(line).value, false, 0, None, false, false, c.locDepth), [])
    else if line == "" then (c, [])
    else if IsComment(line) then
      (if c.depth == 0 && Outside(c) && ManagedApp(line) != None then c.(managed := true) else c, [])
    else if Outside(c) then Opening(c, line)
    else Inside(c, FactsOf(line))
  }

  function Scan(c: Ctl, lines: seq<string>): (Ctl, seq<Pool>) {
    if lines == [] then (c, [])
    else
      var (d, pools) := Scan(c, lines[..|lines| - 1]);
      var (e, more) := Step(d, lines[|lines| - 1]);
      (e, pools + more)
  }

  /** The pools of a dump, in order. */
  function Pools(dump: string): seq<Pool> { Scan(START, Lines(dump)).1 }

  // ---- the code ----

  class Scanner {
    var file: string
    var managed: bool
    var depth: int
    var pool: Option<Pool>
    var vhost: bool
    var loc: bool
    var locDepth: int
    var pools: seq<Pool>

    ghost function Value(): Ctl
      reads this
    {
      Ctl(file, managed, depth, pool, vhost, loc, locDepth)
    }

    constructor ()
      ensures Value() == START && pools == []
    {
      file, managed, depth, pool, vhost, loc, locDepth, pools := "", false, 0, None, false, false, 0, [];
    }

    method ReadBackend(backend: Option<PoolServer>)
      requires pool != None
      modifies this
      ensures var (c, more) := InPool(old(Value()), old(pool).value, backend);
        Value() == c && pools == old(pools) + more
    {
      if backend != None {
        pool := Some(pool.value.(servers := pool.value.servers + [backend.value]));
      }
      if depth <= 0 {
        var down := |pool.value.servers| > 0;
        for i := 0 to |pool.value.servers|
          invariant down == (pool.value.servers != [] && forall k :: 0 <= k < i ==> pool.value.servers[k].down)
        {
          if !pool.value.servers[i].down {
            down := false;
            break;
          }
        }
        pools := pools + [pool.value.(down := down)];
        pool, depth := None, 0;
      }
    }

    method ReadVhost(opens: bool, rest: string)
      requires pool == None
      modifies this
      ensures Value() == InVhost(old(Value()), opens, rest) && pools == old(pools)
    {
      if loc {
        if depth <= locDepth { loc := false; }
        return;
      }
      if opens {
        loc, locDepth := true, depth - 1;
        if rest != "" && '}' in rest { loc := false; }
      }
      if depth <= 0 {
        vhost, depth := false, 0;
      }
    }

    method ReadInside(f: LineFacts)
      modifies this
      ensures var (c, more) := Inside(old(Value()), f); Value() == c && pools == old(pools) + more
    {
      depth := depth + f.opens - f.closes;
      if pool != None { ReadBackend(f.backend); } else { ReadVhost(f.location, f.rest); }
    }

    method ReadOpening(line: string)
      requires pool == None
      modifies this
      ensures var (c, more) := Opening(old(Value()), line); Value() == c && pools == old(pools) + more
    {
      var name := UpstreamName(line);
      if name != None {
        pool := Some(Pool(name.value, file, managed, [], false));
      } else if OpensVhost(line) {
        vhost := true;
      } else {
        return;
      }
      depth := 1;
      var rest := AfterBrace(line);
      if rest != "" { ReadInside(FactsOf(rest)); }
    }

    method Read(raw: string)
      modifies this
      ensures var (c, more) := Step(old(Value()), raw); Value() == c && pools == old(pools) + more
    {
      var line := TrimSpace(raw);
      var marker := Marker(line);
      if marker != None {
        file, managed := marker.value, false;
        depth, pool, vhost, loc := 0, None, false, false;
        return;
      }
      if depth == 0 && pool == None && !vhost && IsComment(line) {
        if ManagedApp(line) != None { managed := true; }
        return;
      }
      if line == "" || IsComment(line) { return; }
      if pool == None && !vhost { ReadOpening(line); } else { ReadInside(FactsOf(line)); }
    }
  }

  lemma ScanMore(c: Ctl, lines: seq<string>, i: nat)
    requires i < |lines|
    ensures var (d, pools) := Scan(c, lines[..i]);
      Scan(c, lines[..i + 1]) == (Step(d, lines[i]).0, pools + Step(d, lines[i]).1)
  {
    assert lines[..i + 1][..i] == lines[..i];
  }

  /** `BuildInventory`, the pools. */
  method BuildInventory(dump: string) returns (pools: seq<Pool>)
    ensures pools == Pools(dump)
  {
    var scanner := new Scanner();
    var lines := Lines(dump);
    for i := 0 to |lines|
      invariant (scanner.Value(), scanner.pools) == Scan(START, lines[..i])
    {
      ScanMore(START, lines, i);
      scanner.Read(lines[i]);
    }
    assert lines[..|lines|] == lines;
    return scanner.pools;
  }
}
