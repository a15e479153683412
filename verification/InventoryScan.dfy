/** What the scanner reports for a laid-out configuration. */
module InventoryScan {
  import opened Text
  import opened Dump
  import opened Manifest
  import opened PoolToggle
  import opened Inventory
  import opened InventoryProofs

  // ---- the scanner on the lines of an item ----

  function ServersIn(line: string): seq<PoolServer> {
    match Backend(TrimSpace(line))
    case None => []
    case Some(s) => [s]
  }

  lemma OneServer(line: string, b: Option<PoolServer>)
    requires b == Backend(TrimSpace(line)) && b != None
    ensures ServersIn(line) == [b.value]
  {
  }

  /** A server line adds one server: its address, and whether the word `down` is among its parameters. */
  lemma ServerAdds(line: string, d: Directive, addr: string)
    requires ServerLine(line) && ParseDirective(line) == Some(d) && addr == Fields(d.params)[0]
    ensures |ServersIn(line)| == 1
    ensures var s := ServersIn(line)[0];
      && s.down == HasDown(d.params)
      && s.host == addr[..IndexOf(addr, ':')] && s.port == Port(addr[IndexOf(addr, ':') + 1..])
  {
    ServerBackend(line, d, addr);
    OneServer(line, Backend(TrimSpace(line)));
  }

  lemma QuietAdds(line: string)
    requires QuietLine(line)
    ensures ServersIn(line) == [] && !IsServer(line)
  {
    QuietIsNoServer(line);
  }

  lemma NotMarker(t: string)
    requires t != "" && t[0] != '#'
    ensures Marker(t) == None && !IsComment(t)
  {
    DiffersAt(t, MARKER_START, 0);
    DiffersAt(t, "#", 0);
  }

  lemma {:induction false} CountNone(s: string, c: char)
    requires c !in s
    ensures Count(s, c) == 0
  {
    if s != "" {
      assert s[0] != c && c !in s[1..];
      CountNone(s[1..], c);
    }
  }

  lemma NoBraceCounts(line: string)
    requires All(line, NoBrace)
    ensures Count(TrimSpace(line), '{') == 0 && Count(TrimSpace(line), '}') == 0
  {
    TrimChars(line, NoBrace);
    CountNone(TrimSpace(line), '{');
    CountNone(TrimSpace(line), '}');
  }

  lemma BodyFacts(line: string)
    requires BodyLine(line)
    ensures MarkerOf(line) == None && All(line, NoBrace)
    ensures TrimSpace(line) == "" || IsComment(TrimSpace(line)) ==> ServersIn(line) == []
  {
    if ServerLine(line) {
      var d := ParseDirective(line).value;
      ServerBackend(line, d, Fields(d.params)[0]);
      StartsWithServer(TrimSpace(line));
    } else {
      QuietIsNoServer(line);
    }
  }

  lemma StartsWithServer(t: string)
    requires HasPrefix(t, SERVER)
    ensures t != "" && t[0] == 's' && Marker(t) == None && !IsComment(t)
  {
    assert t[0] == SERVER[0];
    NotMarker(t);
  }

  function WithServers(c: Ctl, p: Pool, servers: seq<PoolServer>): Ctl { c.(pool := Some(p.(servers := servers))) }

  lemma BodyStep(c: Ctl, p: Pool, line: string)
    requires c.pool == Some(p) && c.depth == 1 && BodyLine(line)
    ensures Step(c, line) == (WithServers(c, p, p.servers + ServersIn(line)), [])
  {
    BodyFacts(line);
    NoBraceCounts(line);
    InsideStep(c, p, FactsOf(TrimSpace(line)), ServersIn(line));
  }

  lemma InsideStep(c: Ctl, p: Pool, f: LineFacts, servers: seq<PoolServer>)
    requires c.pool == Some(p) && c.depth == 1 && f.opens == f.closes == 0
    requires servers == match f.backend case None => [] case Some(s) => [s]
    ensures Inside(c, f) == (WithServers(c, p, p.servers + servers), [])
    ensures servers == [] ==> WithServers(c, p, p.servers + servers) == c
  {
    assert servers == [] ==> p.servers + servers == p.servers;
  }

  lemma {:induction false} BodyScan(c: Ctl, p: Pool, body: seq<string>)
    requires c.pool == Some(p) && c.depth == 1 && Every(body, BodyLine)
    ensures Scan(c, body) == (WithServers(c, p, p.servers + FlatMap(body, ServersIn)), [])
  {
    if body == [] {
      assert p.servers + [] == p.servers;
    } else {
      var front, last := body[..|body| - 1], body[|body| - 1];
      BodyScan(c, p, front);
      BodyScanMore(c, p, body, front, last);
    }
  }

  lemma BodyScanMore(c: Ctl, p: Pool, body: seq<string>, front: seq<string>, last: string)
    requires c.pool == Some(p) && c.depth == 1 && BodyLine(last)
    requires body != [] && front == body[..|body| - 1] && last == body[|body| - 1]
    requires Scan(c, front) == (WithServers(c, p, p.servers + FlatMap(front, ServersIn)), [])
    ensures Scan(c, body) == (WithServers(c, p, p.servers + FlatMap(body, ServersIn)), [])
  {
    var sofar, more := FlatMap(front, ServersIn), ServersIn(last);
    BodyStep(WithServers(c, p, p.servers + sofar), p.(servers := p.servers + sofar), last);
    Associative(p.servers, sofar, more);
    FlatMapLast(body, front, last);
    ScanLast(c, body, WithServers(c, p, p.servers + sofar), WithServers(c, p, p.servers + sofar + more));
  }

  lemma FlatMapLast(body: seq<string>, front: seq<string>, last: string)
    requires body != [] && front == body[..|body| - 1] && last == body[|body| - 1]
    ensures FlatMap(body, ServersIn) == FlatMap(front, ServersIn) + ServersIn(last)
  {
    assert body == front + [last];
    FlatMapGrow(front, last, ServersIn);
  }

  lemma ScanLast(c: Ctl, lines: seq<string>, d: Ctl, e: Ctl)
    requires lines != [] && Scan(c, lines[..|lines| - 1]) == (d, []) && Step(d, lines[|lines| - 1]) == (e, [])
    ensures Scan(c, lines) == (e, [])
  {
    var none: seq<Pool> := [];
    assert none + none == none;
  }

  // ---- the opening and the closing line ----

  function OpenText(b: Item): string
    requires b.Block?
  {
    UPSTREAM + (b.gap + (b.name + (b.sp + "{")))
  }

  lemma OpenTrims(b: Item)
    requires b.Block? && GoodFrame(b)
    ensures TrimSpace(OpenLine(b)) == OpenText(b)
  {
    var u := OpenText(b);
    assert u[0] == UPSTREAM[0] && u[|u| - 1] == '{';
    BlanksAreSpaces(b.indent);
    BlanksAreSpaces(b.tail);
    TrimKeeps(b.indent, u, b.tail, OpenLine(b));
  }

  lemma NameIs(name: string, sp: string)
    requires IsName(name) && AllBlanks(sp)
    ensures NameBeforeBrace(name + (sp + "{")) == Some(name)
  {
    var s := name + (sp + "{");
    if sp == "" {
      SpanIs(s, NotReSpace, |s|);
      assert s[..|s|] == s && s[|s|..] == "";
      LastIndexOfIs(s, '{', |name|);
      assert s[..|name|] == name;
      assert !HasPrefix(SkipRe(""), "{");
    } else {
      BlanksAreSpaces(sp);
      assert s[|name|] == sp[0];
      SpanIs(s, NotReSpace, |name|);
      assert s[..|name|] == name && s[|name|..] == sp + "{";
      SkipReIs(sp, "{");
    }
  }

  lemma OpenNames(gap: string, name: string, sp: string, t: string)
    requires AllBlanks(gap) && gap != "" && IsName(name) && AllBlanks(sp)
    requires t == UPSTREAM + (gap + (name + (sp + "{")))
    ensures Inventory.UpstreamName(t) == Some(name)
  {
    AfterPrefix(UPSTREAM, gap + (name + (sp + "{")));
    BlanksAreSpaces(gap);
    GapSkipped(gap, name, sp + "{", gap + (name + (sp + "{")));
    NameIs(name, sp);
  }

  lemma OpenNothingAfter(gap: string, name: string, sp: string, t: string)
    requires AllBlanks(gap) && IsName(name) && AllBlanks(sp)
    requires t == UPSTREAM + (gap + (name + (sp + "{")))
    ensures AfterBrace(t) == ""
  {
    var n := |t| - 1;
    assert t[n] == '{' && t[n + 1..] == "";
    assert t[..n] == UPSTREAM + (gap + (name + sp));
    IndexOfIs(t, '{', n);
    assert TrimSpace("") == "";
  }

  lemma OpenStep(c: Ctl, b: Item)
    requires b.Block? && GoodFrame(b) && Outside(c)
    ensures Step(c, OpenLine(b)) == (c.(depth := 1, pool := Some(Pool(b.name, c.file, c.managed, [], false))), [])
  {
    var t := OpenText(b);
    OpenTrims(b);
    OpenNames(b.gap, b.name, b.sp, t);
    OpenNothingAfter(b.gap, b.name, b.sp, t);
    assert t[0] == UPSTREAM[0];
    NotMarker(t);
    StepOutside(c, OpenLine(b), t);
  }

  lemma StepOutside(c: Ctl, raw: string, t: string)
    requires TrimSpace(raw) == t && t != "" && Marker(t) == None && !IsComment(t) && Outside(c)
    ensures Step(c, raw) == Opening(c, t)
  {
  }

  lemma CloseStep(c: Ctl, p: Pool, lead: string, trail: string)
    requires AllBlanks(lead) && AllBlanks(trail) && c.pool == Some(p) && c.depth == 1
    ensures Step(c, lead + ("}" + trail)) == (c.(pool := None, depth := 0), [Closed(p)])
  {
    BlanksAreSpaces(lead);
    BlanksAreSpaces(trail);
    assert lead + ("}" + trail) == lead + "}" + trail;
    TrimKeeps(lead, "}", trail, lead + ("}" + trail));
    NotMarker("}");
    DiffersAt("}", SERVER, 0);
    assert Count("}", '}') == 1 && Count("}", '{') == 0;
  }

  // ---- whole items ----

  function ReportOf(c: Ctl, b: Item): Pool
    requires b.Block?
  {
    Closed(Pool(b.name, c.file, c.managed, FlatMap(b.body, ServersIn), false))
  }

  function ItemPools(c: Ctl, item: Item): seq<Pool> { if item.Block? then [ReportOf(c, item)] else [] }

  lemma {:induction false} ScanConcat(c: Ctl, a: seq<string>, b: seq<string>)
    ensures var (d, first) := Scan(c, a); var (e, more) := Scan(d, b); Scan(c, a + b) == (e, first + more)
  {
    if b == [] {
      assert a + b == a && Scan(c, a).1 + [] == Scan(c, a).1;
    } else {
      var front, last := b[..|b| - 1], b[|b| - 1];
      ScanConcat(c, a, front);
      assert (a + b)[..|a + b| - 1] == a + front && (a + b)[|a + b| - 1] == last;
      var (d, first) := Scan(c, a);
      var (e, more) := Scan(d, front);
      Associative(first, more, Step(e, last).1);
    }
  }

  lemma ScanOne(c: Ctl, line: string)
    ensures Scan(c, [line]) == Step(c, line)
  {
    assert [line][..0] == [] && [] + Step(c, line).1 == Step(c, line).1;
  }

  lemma OtherStep(c: Ctl, line: string)
    requires OtherLine(line) && c.pool == None
    ensures Step(c, line).0.pool == None && Step(c, line).1 == []
  {
    var t := TrimSpace(line);
    NotUpstream(t);
    OtherOpening(c, t);
    OtherInside(c, FactsOf(t));
  }

  lemma NotUpstream(t: string)
    requires !HasPrefix(t, UPSTREAM)
    ensures Inventory.UpstreamName(t) == None
  {
  }

  lemma OtherInside(c: Ctl, f: LineFacts)
    requires c.pool == None
    ensures Inside(c, f).0.pool == None && Inside(c, f).1 == []
  {
  }

  lemma OtherOpening(c: Ctl, t: string)
    requires Inventory.UpstreamName(t) == None && c.pool == None
    ensures Opening(c, t).0.pool == None && Opening(c, t).1 == []
  {
    OtherInside(c.(depth := 1, vhost := true), FactsOf(AfterBrace(t)));
  }

  lemma BlockScan(c: Ctl, b: Item)
    requires GoodItem(b) && b.Block? && Outside(c)
    ensures Scan(c, LinesIn(b)) == (c.(depth := 0), [ReportOf(c, b)])
  {
    var p := Pool(b.name, c.file, c.managed, [], false);
    var d := c.(depth := 1, pool := Some(p));
    OpenStep(c, b);
    ScanOne(c, OpenLine(b));
    BodyScan(d, p, b.body);
    assert [] + FlatMap(b.body, ServersIn) == FlatMap(b.body, ServersIn);
    var q := p.(servers := FlatMap(b.body, ServersIn));
    CloseStep(d.(pool := Some(q)), q, b.lead, b.trail);
    ScanOne(d.(pool := Some(q)), CloseLine(b));
    ScanConcat(c, [OpenLine(b)], b.body);
    ScanConcat(c, [OpenLine(b)] + b.body, [CloseLine(b)]);
  }

  lemma ItemScan(c: Ctl, item: Item)
    requires GoodItem(item) && c.pool == None && (item.Block? ==> !c.vhost)
    ensures Scan(c, LinesIn(item)) == (ItemCtl(c, item), ItemPools(c, item)) && ItemCtl(c, item).pool == None
  {
    if item.Block? {
      BlockScan(c, item);
    } else {
      OtherStep(c, item.line);
      ScanOne(c, item.line);
    }
  }

  function Reported(items: seq<Item>): seq<Pool> {
    if items == [] then []
    else Reported(items[..|items| - 1]) + ItemPools(CtlAfter(items[..|items| - 1]), items[|items| - 1])
  }

  lemma OutsidePrefix(items: seq<Item>, k: nat)
    requires OutsideVhosts(items) && k <= |items|
    ensures OutsideVhosts(items[..k])
  {
    assert forall i :: 0 <= i < k ==> items[..k][..i] == items[..i];
  }

  lemma {:induction false} ItemsScan(items: seq<Item>)
    requires Every(items, GoodItem) && OutsideVhosts(items)
    ensures Scan(START, ItemLines(items)) == (CtlAfter(items), Reported(items)) && CtlAfter(items).pool == None
  {
    if items != [] {
      var n := |items| - 1;
      OutsidePrefix(items, n);
      ItemsScan(items[..n]);
      ItemScan(CtlAfter(items[..n]), items[n]);
      assert items[..n + 1] == items;
      FlatMapSnoc(items, n, LinesIn);
      ScanConcat(START, ItemLines(items[..n]), LinesIn(items[n]));
    }
  }

  predicate OneLine(line: string) { NL !in line }

  lemma LinesAreLines(item: Item)
    requires GoodItem(item)
    ensures Every(LinesIn(item), OneLine)
  {
    if item.Block? {
      OpenIsLine(item.indent, item.gap, item.name, item.sp, item.tail);
      CloseIsLine(item.lead, item.trail);
      BodyIsLines(item.body);
      EveryConcat([OpenLine(item)], item.body, OneLine);
      EveryConcat([OpenLine(item)] + item.body, [CloseLine(item)], OneLine);
    }
  }

  lemma BodyIsLines(body: seq<string>)
    requires Every(body, BodyLine)
    ensures Every(body, OneLine)
  {
    forall i | 0 <= i < |body| ensures OneLine(body[i]) { assert BodyLine(body[i]); }
  }

  lemma CloseIsLine(lead: string, trail: string)
    requires AllBlanks(lead) && AllBlanks(trail)
    ensures OneLine(lead + ("}" + trail))
  {
    BlanksAreSpaces(lead);
    BlanksAreSpaces(trail);
  }

  lemma OpenIsLine(indent: string, gap: string, name: string, sp: string, tail: string)
    requires AllBlanks(indent) && AllBlanks(gap) && AllBlanks(sp) && AllBlanks(tail) && IsName(name)
    ensures OneLine(indent + (UPSTREAM + (gap + (name + (sp + "{")))) + tail)
  {
    BlanksAreSpaces(indent);
    BlanksAreSpaces(gap);
    BlanksAreSpaces(sp);
    BlanksAreSpaces(tail);
    assert NL !in UPSTREAM && NL !in name;
  }

  lemma {:induction false} AllLinesAreLines(items: seq<Item>)
    requires Every(items, GoodItem)
    ensures Every(ItemLines(items), OneLine) && (items != [] ==> ItemLines(items) != [])
  {
    if items != [] {
      LinesAreLines(items[0]);
      AllLinesAreLines(items[1..]);
      EveryConcat(LinesIn(items[0]), ItemLines(items[1..]), OneLine);
    }
  }

  /** What the scanner reports for a laid-out text. */
  lemma PoolsOfText(items: seq<Item>)
    requires WellFormed(items)
    ensures Lines(TextOf(items)) == ItemLines(items) && Inventory.Pools(TextOf(items)) == Reported(items)
  {
    AllLinesAreLines(items);
    SplitJoin(ItemLines(items), NL);
    ItemsScan(items);
  }
}
