/** The toggle position the panel shows agrees with the one the toggle computes,
    and a toggle moves exactly the position it was asked to move. */
module InventoryToggles {
  import opened Text
  import opened PoolToggle
  import opened PoolToggleProofs
  import opened Inventory
  import opened InventoryProofs
  import opened InventoryScan
  import opened InventoryAgreement

  // ---- the position of one pool ----

  predicate IsDownLine(line: string) { !Differs(line, true) }

  predicate ServerDown(s: PoolServer) { s.down }

  lemma LineAgrees(line: string)
    requires BodyLine(line)
    ensures ServerLine(line) <==> ServersIn(line) != []
    ensures Every(ServersIn(line), ServerDown) <==> IsDownLine(line)
  {
    if ServerLine(line) {
      var d := ParseDirective(line).value;
      ServerAdds(line, d, Fields(d.params)[0]);
      DiffersIs(line, d);
    } else {
      QuietAdds(line);
    }
  }

  lemma DiffersIs(line: string, d: Directive)
    requires ParseDirective(line) == Some(d)
    ensures IsDownLine(line) <==> HasDown(d.params)
  {
  }

  lemma {:induction false} BodyAgrees(body: seq<string>)
    requires Every(body, BodyLine)
    ensures Every(FlatMap(body, ServersIn), ServerDown) <==> Every(body, IsDownLine)
  {
    if body != [] {
      LineAgrees(body[0]);
      BodyTail(body);
      BodyAgrees(body[1..]);
      EveryBoth(ServersIn(body[0]), FlatMap(body[1..], ServersIn), ServerDown);
      EveryHead(body, IsDownLine);
    }
  }

  lemma EveryHead<T>(s: seq<T>, p: T -> bool)
    requires s != []
    ensures Every(s, p) <==> p(s[0]) && Every(s[1..], p)
  {
    HeadTail(s);
    EveryBoth([s[0]], s[1..], p);
  }

  lemma BodyTail(body: seq<string>)
    requires body != [] && Every(body, BodyLine)
    ensures BodyLine(body[0]) && Every(body[1..], BodyLine)
  {
    EveryHead(body, BodyLine);
  }

  lemma AnyHead<T>(s: seq<T>, p: T -> bool)
    requires s != []
    ensures Any(s, p) <==> p(s[0]) || Any(s[1..], p)
  {
    if Any(s, p) && !p(s[0]) {
      var i :| 0 <= i < |s| && p(s[i]);
      assert s[1..][i - 1] == s[i];
    }
    if Any(s[1..], p) {
      var i :| 0 <= i < |s[1..]| && p(s[1..][i]);
      assert s[i + 1] == s[1..][i];
    }
  }

  lemma {:induction false} BodyServes(body: seq<string>)
    requires Every(body, BodyLine) && Any(body, ServerLine)
    ensures FlatMap(body, ServersIn) != []
  {
    BodyTail(body);
    LineAgrees(body[0]);
    AnyHead(body, ServerLine);
    if !ServerLine(body[0]) { BodyServes(body[1..]); }
  }

  lemma EveryBoth<T>(a: seq<T>, b: seq<T>, p: T -> bool)
    ensures Every(a + b, p) <==> Every(a, p) && Every(b, p)
  {
    if Every(a + b, p) {
      assert forall i :: 0 <= i < |a| ==> (a + b)[i] == a[i];
      assert forall i :: 0 <= i < |b| ==> (a + b)[|a| + i] == b[i];
    }
  }

  predicate Settled(line: string, down: bool) { !Differs(line, down) }

  lemma {:induction false} CountZeroMeans(lines: seq<string>, down: bool)
    requires CountDiffering(lines, down) == 0
    ensures forall i :: 0 <= i < |lines| ==> Settled(lines[i], down)
  {
    if lines != [] {
      var last := |lines| - 1;
      CountZeroMeans(lines[..last], down);
      assert lines == lines[..last] + [lines[last]];
    }
  }

  lemma BlankIsNoServer(s: string)
    requires AllBlanks(s)
    ensures ParseDirective(s) == None
  {
    SkipBlanksIs(s, 0, |s|);
    assert s[|s|..] == "";
  }

  lemma WithinServers(b: Item)
    requires b.Block? && GoodFrame(b) && GoodBody(b.body)
    ensures CountServers(LinesWithin(b)) > 0
    ensures CountDiffering(LinesWithin(b), true) == 0 <==> Every(b.body, IsDownLine)
  {
    SomeServer(b, LinesWithin(b));
    BlankIsNoServer(b.tail);
    BlankIsNoServer(b.lead);
    BlankIsDownLine(b.tail);
    BlankIsDownLine(b.lead);
    AroundBody(b.tail, b.body, b.lead);
    NoneDiffers(LinesWithin(b));
  }

  lemma SomeServer(b: Item, m: seq<string>)
    requires b.Block? && GoodBody(b.body) && m == LinesWithin(b)
    ensures CountServers(m) > 0
  {
    ServersAreServers();
    AnyInside(b.tail, b.body, b.lead, ServerLine, IsServer);
    CountFrom(m);
  }

  lemma ServersAreServers()
    ensures forall line :: ServerLine(line) ==> IsServer(line)
  {
  }

  lemma AnyInside<T(!new)>(a: T, s: seq<T>, b: T, p: T -> bool, q: T -> bool)
    requires Any(s, p) && forall x :: p(x) ==> q(x)
    ensures Any([a] + s + [b], q)
  {
    var i :| 0 <= i < |s| && p(s[i]);
    assert ([a] + s + [b])[i + 1] == s[i];
  }

  lemma CountFrom(m: seq<string>)
    requires Any(m, IsServer)
    ensures CountServers(m) > 0
  {
    CountPositive(m);
  }

  lemma BlankIsDownLine(s: string)
    requires ParseDirective(s) == None
    ensures IsDownLine(s)
  {
  }

  lemma AroundBody(tail: string, body: seq<string>, lead: string)
    requires IsDownLine(tail) && IsDownLine(lead)
    ensures Every([tail] + body + [lead], IsDownLine) <==> Every(body, IsDownLine)
  {
    EveryBoth([tail] + body, [lead], IsDownLine);
    EveryBoth([tail], body, IsDownLine);
  }

  lemma NoneDiffers(m: seq<string>)
    ensures CountDiffering(m, true) == 0 <==> Every(m, IsDownLine)
  {
    if CountDiffering(m, true) == 0 { CountZeroMeans(m, true); }
    if Every(m, IsDownLine) {
      forall i | 0 <= i < |m| ensures !Differs(m[i], true) { assert IsDownLine(m[i]); }
      CountZero(m, true);
    }
  }

  /** For every block, the position the scanner reports is the one the toggle computes. */
  lemma BlockAgrees(items: seq<Item>, k: nat)
    requires WellFormed(items) && k < |items| && items[k].Block?
    ensures IsDown(TextOf(items), items[k].name) == (ReportOf(CtlAfter(items[..k]), items[k]).down, true)
  {
    var b := items[k];
    FindsBlock(items, k);
    WithinServers(b);
    NameIsNamed(b.name);
    ToggleFound(TextOf(items), b.name, true);
    ReportIsDown(b, CtlAfter(items[..k]));
  }

  lemma ReportIsDown(b: Item, c: Ctl)
    requires b.Block? && GoodBody(b.body)
    ensures ReportOf(c, b).down <==> Every(b.body, IsDownLine)
  {
    BodyAgrees(b.body);
    BodyServes(b.body);
    AllDownIs(FlatMap(b.body, ServersIn));
  }

  lemma AllDownIs(servers: seq<PoolServer>)
    requires servers != []
    ensures AllDown(servers) <==> Every(servers, ServerDown)
  {
  }

  /** Which block a reported pool is. */
  ghost predicate ReportedAt(items: seq<Item>, k: nat, p: Pool) {
    k < |items| && items[k].Block? && p == ReportOf(CtlAfter(items[..k]), items[k])
  }

  lemma {:induction false} InReported(items: seq<Item>, p: Pool) returns (k: nat)
    requires p in Reported(items)
    ensures ReportedAt(items, k, p)
  {
    var n := |items| - 1;
    if p in Reported(items[..n]) {
      k := InReported(items[..n], p);
      assert items[..n][..k] == items[..k];
    } else {
      k := n;
    }
  }

  /** A text laid out one directive to a line. */
  ghost predicate LaidOut(conf: string) { exists items :: WellFormed(items) && conf == TextOf(items) }

  /** Every position the panel shows is the one the toggle computes, and is known. */
  ghost predicate Agrees(conf: string) {
    forall p :: p in Inventory.Pools(conf) ==> IsDown(conf, p.name) == (p.down, true)
  }

  lemma PositionsAgree(conf: string)
    requires LaidOut(conf)
    ensures Agrees(conf)
  {
    var items: seq<Item> :| WellFormed(items) && conf == TextOf(items);
    PoolsOfText(items);
    forall p | p in Inventory.Pools(conf) ensures IsDown(conf, p.name) == (p.down, true) {
      var k := InReported(items, p);
      BlockAgrees(items, k);
    }
  }

  // ---- the layout survives a toggle ----

  function Edited(b: Item, down: bool): Item
    requires b.Block?
  {
    b.(body := EditLines(b.body, down))
  }

  lemma WithinEdited(b: Item, down: bool)
    requires b.Block? && GoodFrame(b)
    ensures EditLines(LinesWithin(b), down) == LinesWithin(Edited(b, down))
  {
    BlankIsNoServer(b.tail);
    BlankIsNoServer(b.lead);
    var m, e := EditLines(LinesWithin(b), down), LinesWithin(Edited(b, down));
    forall i | 0 <= i < |m| ensures m[i] == e[i] {
      EditedAt(LinesWithin(b), down, i);
      if 0 < i < |m| - 1 { EditedAt(b.body, down, i - 1); }
    }
  }

  lemma BodyStaysGood(body: seq<string>, down: bool)
    requires GoodBody(body)
    ensures GoodBody(EditLines(body, down))
  {
    var edit := Editor(down);
    forall line | BodyLine(line) ensures BodyLine(edit(line)) && (ServerLine(line) ==> ServerLine(edit(line))) {
      BodyEdited(line, down);
    }
    EveryMapped(body, edit, BodyLine);
    AnyMapped(body, edit, ServerLine, BodyLine);
  }

  lemma EveryMapped<T(!new)>(s: seq<T>, f: T -> T, p: T -> bool)
    requires Every(s, p) && forall x :: p(x) ==> p(f(x))
    ensures Every(Map(s, f), p)
  {
  }

  lemma AnyMapped<T(!new)>(s: seq<T>, f: T -> T, p: T -> bool, within: T -> bool)
    requires Any(s, p) && Every(s, within) && forall x :: within(x) && p(x) ==> p(f(x))
    ensures Any(Map(s, f), p)
  {
    var i :| 0 <= i < |s| && p(s[i]);
    assert Map(s, f)[i] == f(s[i]);
  }

  /** Where the scanner is does not depend on the bodies of the pools. */
  lemma CtlMore(items: seq<Item>, n: nat)
    requires 0 < n <= |items|
    ensures CtlAfter(items[..n]) == ItemCtl(CtlAfter(items[..n - 1]), items[n - 1])
  {
    assert items[..n][..n - 1] == items[..n - 1];
  }

  lemma SameItemCtl(c: Ctl, b: Item, down: bool)
    requires b.Block?
    ensures ItemCtl(c, Edited(b, down)) == ItemCtl(c, b)
  {
  }

  lemma {:induction false} CtlSame(items: seq<Item>, k: nat, down: bool, n: nat)
    requires k < |items| && items[k].Block? && n <= |items|
    ensures CtlAfter(items[k := Edited(items[k], down)][..n]) == CtlAfter(items[..n])
  {
    if n > 0 {
      var e := items[k := Edited(items[k], down)];
      CtlSame(items, k, down, n - 1);
      CtlMore(items, n);
      CtlMore(e, n);
      SameItemCtl(CtlAfter(items[..n - 1]), items[k], down);
    } else {
      assert items[k := Edited(items[k], down)][..0] == items[..0];
    }
  }

  lemma EveryUpdated<T>(s: seq<T>, k: nat, x: T, p: T -> bool)
    requires k < |s| && Every(s, p) && p(x)
    ensures Every(s[k := x], p)
  {
  }

  lemma NamesStay(items: seq<Item>, k: nat, down: bool)
    requires DistinctNames(items) && k < |items| && items[k].Block?
    ensures DistinctNames(items[k := Edited(items[k], down)])
  {
  }

  lemma OutsideStays(items: seq<Item>, k: nat, down: bool)
    requires OutsideVhosts(items) && k < |items| && items[k].Block?
    ensures OutsideVhosts(items[k := Edited(items[k], down)])
  {
    var e := items[k := Edited(items[k], down)];
    forall i | 0 <= i < |e| && e[i].Block? ensures !CtlAfter(e[..i]).vhost {
      CtlSame(items, k, down, i);
      assert items[i].Block?;
    }
  }

  lemma StaysWellFormed(items: seq<Item>, k: nat, down: bool)
    requires WellFormed(items) && k < |items| && items[k].Block?
    ensures WellFormed(items[k := Edited(items[k], down)])
  {
    StaysGood(items[k], down);
    EveryUpdated(items, k, Edited(items[k], down), GoodItem);
    NamesStay(items, k, down);
    OutsideStays(items, k, down);
  }

  lemma StaysGood(b: Item, down: bool)
    requires b.Block? && GoodItem(b)
    ensures GoodItem(Edited(b, down))
  {
    BodyStaysGood(b.body, down);
  }

  /** A toggle of a block rewrites its body, line by line, and nothing else. */
  lemma TogglesBody(items: seq<Item>, k: nat, down: bool)
    requires WellFormed(items) && k < |items| && items[k].Block?
    ensures var r := Toggle(TextOf(items), items[k].name, down);
      r.Toggled? && r.config == TextOf(items[k := Edited(items[k], down)])
  {
    var b, e := items[k], items[k := Edited(items[k], down)];
    FindsBlock(items, k);
    WithinServers(b);
    NameIsNamed(b.name);
    WithinEdited(b, down);
    assert e[..k] == items[..k] && e[k + 1..] == items[k + 1..];
    TextParts(e, k);
    ToggledParts(TextOf(items), b.name, down, Unlines(LinesBefore(items, k)), Unlines(LinesWithin(b)),
      Unlines(LinesBehind(items, k)), LinesWithin(b));
  }

  lemma ToggledParts(conf: string, name: string, down: bool, before: string, within: string, behind: string,
                     lines: seq<string>)
    requires Named(name) && Found(conf, name, before, within, behind) && lines == PoolLines(conf, name) &&
      CountServers(lines) > 0
    ensures Toggle(conf, name, down).Toggled?
    ensures Toggle(conf, name, down).config == before + Unlines(EditLines(lines, down)) + behind
  {
    Slices(before, within, behind);
  }

  // ---- a name no pool has ----

  lemma LineAlone(line: string, name: string)
    requires NeverOpens(line, name) && Named(name)
    ensures HeaderEnd(line, name) == None
  {
    assert HeaderEnd(line + ([NL] + ""), name) == None;
    if MatchHeader(line, name) != None {
      var h := MatchHeader(line, name).value;
      assert (line + ([NL] + ""))[..h.end] == line[..h.end];
      HeaderLocal(line, line + ([NL] + ""), name, h);
      HeaderIsMatch(line + ([NL] + ""), name, h);
    }
  }

  lemma {:induction false} FindsNothing(lines: seq<string>, name: string)
    requires lines != [] && NoneOpens(lines, name) && Named(name)
    ensures FindHeader(Unlines(lines), name) == None
  {
    if |lines| == 1 {
      LineAlone(lines[0], name);
      IndexIs(lines[0], NL);
    } else {
      FindsNothing(lines[1..], name);
      HeadTail(lines);
      UnlinesCons(lines[0], lines[1..]);
      SkipLine(lines[0], Unlines(lines[1..]), HeaderOf(name));
    }
  }

  lemma UnknownIsRefused(items: seq<Item>, name: string, down: bool)
    requires WellFormed(items) && IsName(name)
    requires forall i :: 0 <= i < |items| && items[i].Block? ==> items[i].name != name
    ensures Toggle(TextOf(items), name, down) == Failed(NotFound)
  {
    ItemsNeverOpen(items, name);
    AllLinesAreLines(items);
    NameIsNamed(name);
    FindsNothing(ItemLines(items), name);
  }

  // ---- what a toggle changes in the report ----

  function AddressOf(s: PoolServer): (string, nat) { (s.host, s.port) }

  function Addresses(p: Pool): seq<(string, nat)> { Map(p.servers, AddressOf) }

  lemma LineKeepsAddress(line: string, down: bool)
    requires BodyLine(line)
    ensures Map(ServersIn(EditLine(line, down)), AddressOf) == Map(ServersIn(line), AddressOf)
  {
    if ServerLine(line) {
      ServerKeepsAddress(line, down, ParseDirective(line).value);
    } else {
      QuietAdds(line);
    }
  }

  lemma ServerKeepsAddress(line: string, down: bool, d: Directive)
    requires ServerLine(line) && ParseDirective(line) == Some(d)
    ensures Map(ServersIn(EditLine(line, down)), AddressOf) == Map(ServersIn(line), AddressOf)
  {
    var addr := Fields(d.params)[0];
    ServerAdds(line, d, addr);
    ServerEdited(line, down, d);
    ServerAdds(EditLine(line, down), ParseDirective(EditLine(line, down)).value, addr);
    SameOne(ServersIn(EditLine(line, down)), ServersIn(line));
  }

  lemma SameOne(a: seq<PoolServer>, b: seq<PoolServer>)
    requires |a| == |b| == 1 && AddressOf(a[0]) == AddressOf(b[0])
    ensures Map(a, AddressOf) == Map(b, AddressOf)
  {
  }

  lemma MapConcat<A, B>(a: seq<A>, b: seq<A>, f: A -> B)
    ensures Map(a + b, f) == Map(a, f) + Map(b, f)
  {
  }

  lemma {:induction false} BodyKeepsAddresses(body: seq<string>, down: bool)
    requires Every(body, BodyLine)
    ensures Map(FlatMap(EditLines(body, down), ServersIn), AddressOf) == Map(FlatMap(body, ServersIn), AddressOf)
  {
    if body != [] {
      EditLinesCons(body, down);
      LineKeepsAddress(body[0], down);
      BodyKeepsAddresses(body[1..], down);
      var e := EditLines(body, down);
      MapConcat(ServersIn(e[0]), FlatMap(e[1..], ServersIn), AddressOf);
      MapConcat(ServersIn(body[0]), FlatMap(body[1..], ServersIn), AddressOf);
    }
  }

  lemma EditedPosition(body: seq<string>, down: bool)
    requires GoodBody(body)
    ensures Every(EditLines(body, down), IsDownLine) <==> down
  {
    var e := EditLines(body, down);
    AfterEdit(body, down);
    BodyStaysGood(body, down);
    CountZeroMeans(e, down);
    ServersAreServers();
    if down { NoneDiffers(e); } else { UpServer(e); }
  }

  lemma UpServer(e: seq<string>)
    requires Any(e, ServerLine) && forall i :: 0 <= i < |e| ==> !Differs(e[i], false)
    ensures !Every(e, IsDownLine)
  {
    var i :| 0 <= i < |e| && ServerLine(e[i]);
    UpIsNotDown(e[i]);
  }

  lemma UpIsNotDown(line: string)
    requires ServerLine(line) && !Differs(line, false)
    ensures !IsDownLine(line)
  {
  }

  lemma EditedReport(b: Item, c: Ctl, down: bool)
    requires b.Block? && GoodItem(b)
    ensures var p, q := ReportOf(c, b), ReportOf(c, Edited(b, down));
      q.down == down && Addresses(q) == Addresses(p) && q == p.(servers := q.servers, down := q.down)
  {
    BodyStaysGood(b.body, down);
    ReportIsDown(Edited(b, down), c);
    EditedPosition(b.body, down);
    BodyKeepsAddresses(b.body, down);
  }

  /** The pool asked for is at the position asked for, with its servers; every other pool is as it was. */
  ghost predicate Moved(p: Pool, q: Pool, name: string, down: bool) {
    if p.name == name then
      q.down == down && Addresses(q) == Addresses(p) && q == p.(servers := q.servers, down := q.down)
    else q == p
  }

  ghost predicate AllMoved(before: seq<Pool>, after: seq<Pool>, name: string, down: bool) {
    |after| == |before| && forall j :: 0 <= j < |before| ==> Moved(before[j], after[j], name, down)
  }

  lemma ItemMoved(items: seq<Item>, k: nat, down: bool, i: nat)
    requires WellFormed(items) && k < |items| && items[k].Block? && i < |items|
    ensures var e := items[k := Edited(items[k], down)];
      AllMoved(ItemPools(CtlAfter(items[..i]), items[i]), ItemPools(CtlAfter(e[..i]), e[i]), items[k].name, down)
  {
    CtlSame(items, k, down, i);
    if i == k { EditedReport(items[k], CtlAfter(items[..k]), down); }
  }

  lemma AllMovedConcat(a: seq<Pool>, a': seq<Pool>, b: seq<Pool>, b': seq<Pool>, name: string, down: bool)
    requires AllMoved(a, a', name, down) && AllMoved(b, b', name, down)
    ensures AllMoved(a + b, a' + b', name, down)
  {
  }

  lemma ReportedMore(items: seq<Item>, n: nat)
    requires 0 < n <= |items|
    ensures Reported(items[..n]) == Reported(items[..n - 1]) + ItemPools(CtlAfter(items[..n - 1]), items[n - 1])
  {
    assert items[..n][..n - 1] == items[..n - 1];
  }

  lemma {:induction false} ReportedMoved(items: seq<Item>, k: nat, down: bool, n: nat, e: seq<Item>)
    requires WellFormed(items) && k < |items| && items[k].Block? && n <= |items| &&
      e == items[k := Edited(items[k], down)]
    ensures AllMoved(Reported(items[..n]), Reported(e[..n]), items[k].name, down)
  {
    if n > 0 {
      ReportedMoved(items, k, down, n - 1, e);
      ItemMoved(items, k, down, n - 1);
      ReportedMore(items, n);
      ReportedMore(e, n);
      AllMovedConcat(Reported(items[..n - 1]), Reported(e[..n - 1]),
                     ItemPools(CtlAfter(items[..n - 1]), items[n - 1]),
                     ItemPools(CtlAfter(e[..n - 1]), e[n - 1]), items[k].name, down);
    }
  }

  function Applied(conf: string, pool: string, down: bool): string {
    var r := Toggle(conf, pool, down);
    if r.Toggled? then r.config else conf
  }

  lemma MovesKnown(items: seq<Item>, k: nat, down: bool, conf: string)
    requires WellFormed(items) && k < |items| && items[k].Block? && conf == TextOf(items)
    ensures var pool := items[k].name;
      && Toggle(conf, pool, down).Toggled? && LaidOut(Applied(conf, pool, down))
      && AllMoved(Inventory.Pools(conf), Inventory.Pools(Applied(conf, pool, down)), pool, down)
  {
    var e := items[k := Edited(items[k], down)];
    TogglesBody(items, k, down);
    StaysWellFormed(items, k, down);
    PoolsOfText(items);
    PoolsOfText(e);
    ReportedMoved(items, k, down, |items|, e);
    assert items[..|items|] == items && e[..|e|] == e;
  }

  lemma MovesNone(items: seq<Item>, pool: string, down: bool, conf: string)
    requires WellFormed(items) && IsName(pool) && conf == TextOf(items)
    requires forall i :: 0 <= i < |items| && items[i].Block? ==> items[i].name != pool
    ensures Toggle(conf, pool, down) == Failed(NotFound)
    ensures AllMoved(Inventory.Pools(conf), Inventory.Pools(conf), pool, down)
  {
    PoolsOfText(items);
    UnknownIsRefused(items, pool, down);
    NoneNamed(items, pool);
  }

  /** A toggle keeps the layout and moves, in what the panel shows, the pool asked
      for to the position asked for and nothing else; a name no pool has is refused. */
  lemma ToggleMovesOne(conf: string, pool: string, down: bool)
    requires LaidOut(conf) && IsName(pool)
    ensures LaidOut(Applied(conf, pool, down))
    ensures AllMoved(Inventory.Pools(conf), Inventory.Pools(Applied(conf, pool, down)), pool, down)
    ensures Toggle(conf, pool, down).Toggled? || Toggle(conf, pool, down) == Failed(NotFound)
  {
    var items: seq<Item> :| WellFormed(items) && conf == TextOf(items);
    if k :| 0 <= k < |items| && items[k].Block? && items[k].name == pool {
      MovesKnown(items, k, down, conf);
    } else {
      MovesNone(items, pool, down, conf);
    }
  }

  lemma NoneNamed(items: seq<Item>, name: string)
    requires forall i :: 0 <= i < |items| && items[i].Block? ==> items[i].name != name
    ensures forall j :: 0 <= j < |Reported(items)| ==> Reported(items)[j].name != name
  {
    forall j | 0 <= j < |Reported(items)| ensures Reported(items)[j].name != name {
      var k := InReported(items, Reported(items)[j]);
    }
  }

  /** A toggle leaves the computed position of every other pool as it was, or as unknown. */
  lemma OthersPosition(conf: string, pool: string, down: bool, other: string)
    requires LaidOut(conf) && IsName(pool) && IsName(other) && pool != other
    ensures IsDown(Applied(conf, pool, down), other) == IsDown(conf, other)
  {
    var items: seq<Item> :| WellFormed(items) && conf == TextOf(items);
    if k :| 0 <= k < |items| && items[k].Block? && items[k].name == pool {
      OtherBlock(items, k, down, other);
    } else {
      MovesNone(items, pool, down, conf);
    }
  }

  lemma OtherBlock(items: seq<Item>, k: nat, down: bool, other: string)
    requires WellFormed(items) && k < |items| && items[k].Block? && IsName(other) && items[k].name != other
    ensures IsDown(Applied(TextOf(items), items[k].name, down), other) == IsDown(TextOf(items), other)
  {
    var e := items[k := Edited(items[k], down)];
    TogglesBody(items, k, down);
    StaysWellFormed(items, k, down);
    if i :| 0 <= i < |items| && items[i].Block? && items[i].name == other {
      CtlSame(items, k, down, i);
      SameBlock(items, e, i);
    } else {
      NeitherHas(items, e, k, other);
    }
  }

  lemma NeitherHas(items: seq<Item>, e: seq<Item>, k: nat, other: string)
    requires WellFormed(items) && WellFormed(e) && IsName(other) && k < |items| == |e|
    requires forall i :: 0 <= i < |items| && i != k ==> e[i] == items[i]
    requires e[k].Block? && items[k].Block? && e[k].name == items[k].name
    requires forall i :: 0 <= i < |items| && items[i].Block? ==> items[i].name != other
    ensures IsDown(TextOf(e), other) == IsDown(TextOf(items), other)
  {
    NoBlock(items, other);
    NoBlock(e, other);
  }

  lemma SameBlock(items: seq<Item>, e: seq<Item>, i: nat)
    requires WellFormed(items) && WellFormed(e) && i < |items| == |e| && items[i].Block? && e[i] == items[i]
    requires CtlAfter(items[..i]) == CtlAfter(e[..i])
    ensures IsDown(TextOf(e), items[i].name) == IsDown(TextOf(items), items[i].name)
  {
    BlockAgrees(items, i);
    BlockAgrees(e, i);
  }

  lemma NoBlock(items: seq<Item>, name: string)
    requires WellFormed(items) && IsName(name)
    requires forall i :: 0 <= i < |items| && items[i].Block? ==> items[i].name != name
    ensures IsDown(TextOf(items), name) == (false, false)
  {
    UnknownIsRefused(items, name, true);
  }

  // ---- any sequence of toggles ----

  datatype Request = Request(pool: string, down: bool)

  function AppliedAll(conf: string, requests: seq<Request>): string {
    if requests == [] then conf
    else
      var last := requests[|requests| - 1];
      Applied(AppliedAll(conf, requests[..|requests| - 1]), last.pool, last.down)
  }

  /** Before and after any sequence of toggles the panel and the toggle agree on every pool. */
  lemma {:induction false} AgreesThroughout(conf: string, requests: seq<Request>)
    requires LaidOut(conf) && forall i :: 0 <= i < |requests| ==> IsName(requests[i].pool)
    ensures LaidOut(AppliedAll(conf, requests)) && Agrees(AppliedAll(conf, requests))
  {
    if requests != [] {
      var last := requests[|requests| - 1];
      AgreesThroughout(conf, requests[..|requests| - 1]);
      ToggleMovesOne(AppliedAll(conf, requests[..|requests| - 1]), last.pool, last.down);
    }
    PositionsAgree(AppliedAll(conf, requests));
  }

  /** The position the last request for the pool asked for, or the one it had. */
  function Latest(requests: seq<Request>, name: string, at: bool): bool {
    if requests == [] then at
    else
      var last := requests[|requests| - 1];
      if last.pool == name then last.down else Latest(requests[..|requests| - 1], name, at)
  }

  /** After any sequence of toggles, one at a time, the panel shows the same pools
      with the same addresses, each at the position its last request asked for. */
  lemma {:induction false} LastRequestWins(conf: string, requests: seq<Request>)
    requires LaidOut(conf) && forall i :: 0 <= i < |requests| ==> IsName(requests[i].pool)
    ensures var before, after := Inventory.Pools(conf), Inventory.Pools(AppliedAll(conf, requests));
      && |after| == |before|
      && forall j :: 0 <= j < |before| ==>
        && after[j].name == before[j].name && Addresses(after[j]) == Addresses(before[j])
        && after[j].down == Latest(requests, before[j].name, before[j].down)
  {
    if requests != [] {
      var rest, last := requests[..|requests| - 1], requests[|requests| - 1];
      LastRequestWins(conf, rest);
      AgreesThroughout(conf, rest);
      ToggleMovesOne(AppliedAll(conf, rest), last.pool, last.down);
      var before, mid := Inventory.Pools(conf), Inventory.Pools(AppliedAll(conf, rest));
      var after := Inventory.Pools(AppliedAll(conf, requests));
      forall j | 0 <= j < |before|
        ensures after[j].name == before[j].name && Addresses(after[j]) == Addresses(before[j])
        ensures after[j].down == Latest(requests, before[j].name, before[j].down)
      {
        assert Moved(mid[j], after[j], last.pool, last.down);
      }
    }
  }
}
