/** The toggle position the panel shows is the one the toggle computes, for a
    configuration written one directive to a line, before and after any toggles. */
module InventoryProofs {
  import opened Text
  import opened Dump
  import opened PoolToggle
  import opened PoolToggleProofs
  import opened Inventory
  import opened Manifest

  // ---- the layout ----

  predicate NoBrace(c: char) { !IsBrace(c) }

  /** Spaces and tabs are the only blanks. */
  predicate TidyChar(c: char) { !IsSpace(c) || IsBlank(c) }

  predicate NameChar(c: char) { !IsSpace(c) && !IsBrace(c) }

  predicate IsName(s: string) { s != "" && All(s, NameChar) }

  /** `host:port` */
  predicate IsAddress(s: string) {
    var k := IndexOf(s, ':');
    0 < k && k + 1 < |s| && All(s[k + 1..], IsDigit)
  }

  /** `server host:port [params];` */
  predicate ServerLine(line: string) {
    All(line, TidyChar) && All(line, NoBrace)
    && match ParseDirective(line)
       case None => false
       case Some(d) => Fields(d.params) != [] && IsAddress(Fields(d.params)[0])
  }

  /** Any other line of a pool: blank, a comment, or a directive of another name. */
  predicate QuietLine(line: string) {
    NL !in line && All(line, NoBrace) && MarkerOf(line) == None
    && !HasPrefix(TrimSpace(line), SERVER) && !HasPrefix(TrimSpace(line), UPSTREAM)
  }

  predicate BodyLine(line: string) { ServerLine(line) || QuietLine(line) }

  /** A line outside the pools: anything that does not begin with the word `upstream`. */
  predicate OtherLine(line: string) { NL !in line && !HasPrefix(TrimSpace(line), UPSTREAM) }

  datatype Item =
    | Other(line: string)
    | Block(indent: string, gap: string, name: string, sp: string, tail: string, body: seq<string>, lead: string,
      trail: string)

  function OpenHead(b: Item): string
    requires b.Block?
  {
    b.indent + (UPSTREAM + (b.gap + (b.name + (b.sp + "{"))))
  }

  function OpenLine(b: Item): string
    requires b.Block?
  {
    OpenHead(b) + b.tail
  }

  function CloseLine(b: Item): string
    requires b.Block?
  {
    b.lead + ("}" + b.trail)
  }

  predicate GoodFrame(b: Item)
    requires b.Block?
  {
    && AllBlanks(b.indent) && AllBlanks(b.gap) && b.gap != "" && IsName(b.name) && AllBlanks(b.sp) && AllBlanks(b.tail)
    && AllBlanks(b.lead) && AllBlanks(b.trail)
  }

  ghost predicate Any<T>(s: seq<T>, p: T -> bool) { exists i :: 0 <= i < |s| && p(s[i]) }

  /** Every line is of a known kind, and one is a server. */
  ghost predicate GoodBody(body: seq<string>) { Every(body, BodyLine) && Any(body, ServerLine) }

  ghost predicate GoodItem(item: Item) {
    if item.Block? then GoodFrame(item) && GoodBody(item.body) else OtherLine(item.line)
  }

  function LinesIn(item: Item): seq<string> {
    if item.Block? then [OpenLine(item)] + item.body + [CloseLine(item)] else [item.line]
  }

  function ItemLines(items: seq<Item>): seq<string> { FlatMap(items, LinesIn) }

  function TextOf(items: seq<Item>): string { Unlines(ItemLines(items)) }

  /** Where the scanner is after an item. */
  function ItemCtl(c: Ctl, item: Item): Ctl {
    if item.Block? then c.(depth := 0) else Step(c, item.line).0
  }

  function CtlAfter(items: seq<Item>): Ctl {
    if items == [] then START else ItemCtl(CtlAfter(items[..|items| - 1]), items[|items| - 1])
  }

  ghost predicate DistinctNames(items: seq<Item>) {
    forall i, j :: 0 <= i < j < |items| && items[i].Block? && items[j].Block? ==> items[i].name != items[j].name
  }

  ghost predicate OutsideVhosts(items: seq<Item>) {
    forall i :: 0 <= i < |items| && items[i].Block? ==> !CtlAfter(items[..i]).vhost
  }

  /** Pools have different names and do not stand inside server blocks. */
  ghost predicate WellFormed(items: seq<Item>) {
    items != [] && Every(items, GoodItem) && DistinctNames(items) && OutsideVhosts(items)
  }

  // ---- trimming ----

  lemma {:induction false} TrimRightKeeps(u: string, rest: string)
    requires u != "" && !IsSpace(u[|u| - 1])
    ensures HasPrefix(TrimRight(u + rest), u)
    ensures All(rest, IsSpace) ==> TrimRight(u + rest) == u
    decreases |rest|
  {
    if rest == "" {
      assert u + rest == u;
    } else {
      var s := u + rest;
      assert s[..|s| - 1] == u + rest[..|rest| - 1] && s[|s| - 1] == rest[|rest| - 1];
      if IsSpace(rest[|rest| - 1]) {
        TrimRightKeeps(u, rest[..|rest| - 1]);
      }
    }
  }

  predicate Tight(u: string) { u != "" && !IsSpace(u[0]) && !IsSpace(u[|u| - 1]) }

  lemma TrimKeeps(lead: string, u: string, rest: string, line: string)
    requires All(lead, IsSpace) && Tight(u) && line == lead + u + rest
    ensures HasPrefix(TrimSpace(line), u)
    ensures All(rest, IsSpace) ==> TrimSpace(line) == u
  {
    assert line == lead + (u + rest) && line[|lead|] == u[0];
    SpanIs(line, IsSpace, |lead|);
    assert TrimLeft(line) == u + rest;
    TrimRightKeeps(u, rest);
  }

  lemma BlanksAreSpaces(s: string)
    requires AllBlanks(s)
    ensures All(s, IsSpace) && All(s, IsReSpace) && NL !in s
  {
  }

  lemma WordsTight()
    ensures Tight(UPSTREAM) && Tight(SERVER)
  {
  }

  /** A word at the head of a line, after blanks, is at the head of the trimmed line. */
  lemma WordLeads(line: string, i: nat, word: string)
    requires i <= |line| && Blanks(line, 0, i) && Tight(word) && HasPrefix(line[i..], word)
    ensures HasPrefix(TrimSpace(line), word)
  {
    assert AllBlanks(line[..i]);
    BlanksAreSpaces(line[..i]);
    assert line[i..] == word + line[i..][|word|..];
    assert line == line[..i] + word + line[i..][|word|..];
    TrimKeeps(line[..i], word, line[i..][|word|..], line);
  }

  lemma {:induction false} TrimRightPart(s: string)
    ensures TrimRight(s) <= s
  {
    TrimRightPrefix(s);
  }

  lemma TrimChars(s: string, p: char -> bool)
    requires All(s, p)
    ensures All(TrimSpace(s), p)
  {
    TrimRightPart(TrimLeft(s));
  }

  // ---- servers of a body line ----

  lemma QuietIsNoServer(line: string)
    requires !HasPrefix(TrimSpace(line), SERVER)
    ensures !IsServer(line) && Backend(TrimSpace(line)) == None
  {
    if IsServer(line) {
      WordsTight();
      WordLeads(line, SkipBlanks(line, 0), SERVER);
    }
  }

  lemma BackendOf(between: string, x: string, line: string)
    requires line == SERVER + (between + (";" + x)) && ';' !in between
    ensures Backend(line) == if Span(between, IsReSpace) == 0 then None else BackendIn(SkipRe(between))
  {
    var rest := between + (";" + x);
    AfterPrefix(SERVER, rest);
    assert rest[..|between|] == between && rest[|between|] == ';';
    IndexOfIs(rest, ';', |between|);
  }

  lemma {:induction false} ColonIs(s: string, k: nat, at: nat)
    requires k <= at && at + 1 < |s| && s[at] == ':' && IsDigit(s[at + 1])
    requires forall i :: k <= i < at ==> s[i] != ':'
    ensures ColonBeforeDigit(s, k) == at
    decreases at - k
  {
    if k < at { ColonIs(s, k + 1, at); }
  }

  lemma AddressColon(addr: string)
    requires IsAddress(addr)
    ensures ColonBeforeDigit(addr, 1) == IndexOf(addr, ':')
  {
    var at := IndexOf(addr, ':');
    IndexIs(addr, ':');
    assert forall i :: 0 <= i < at ==> addr[..at][i] == addr[i];
    assert addr[at + 1..][0] == addr[at + 1];
    ColonIs(addr, 1, at);
  }

  predicate BlankStart(s: string) { s == "" || (IsSpace(s[0]) && IsReSpace(s[0])) }

  lemma BackendInIs(addr: string, rest: string)
    requires IsAddress(addr) && All(addr, NotSpace) && BlankStart(rest)
    ensures BackendIn(addr + rest) != None
    ensures BackendIn(addr + rest).value.down == HasDown(TrimSpace(rest))
    ensures BackendIn(addr + rest).value.host == addr[..IndexOf(addr, ':')]
    ensures BackendIn(addr + rest).value.port == Port(addr[IndexOf(addr, ':') + 1..])
  {
    var s, at := addr + rest, IndexOf(addr, ':');
    SpanIs(s, NotReSpace, |addr|);
    assert s[..|addr|] == addr;
    AddressColon(addr);
    PortSpan(addr, rest, at);
  }

  lemma PortSpan(addr: string, rest: string, at: nat)
    requires at + 1 < |addr| && All(addr[at + 1..], IsDigit) && BlankStart(rest)
    ensures var t := (addr + rest)[at + 1..];
      Span(t, IsDigit) == |addr| - at - 1 && t[..|addr| - at - 1] == addr[at + 1..] && (addr + rest)[|addr|..] == rest
  {
    var t := (addr + rest)[at + 1..];
    assert t == addr[at + 1..] + rest;
    SpanIs(t, IsDigit, |addr| - at - 1);
  }

  lemma FieldsDropLast(s: string, c: char)
    requires IsSpace(c)
    ensures Fields(s + [c]) == Fields(s)
  {
    assert s + [c] + "" == s + [c];
    FieldsAcross(s, c, "");
    FieldsOfBlank("");
  }

  lemma {:induction false} FieldsTrimRight(s: string)
    ensures Fields(TrimRight(s)) == Fields(s)
  {
    if s != "" && IsSpace(s[|s| - 1]) {
      var before := s[..|s| - 1];
      FieldsTrimRight(before);
      FieldsDropLast(before, s[|s| - 1]);
      assert s == before + [s[|s| - 1]];
    }
  }

  lemma FieldsTrim(s: string)
    ensures Fields(TrimSpace(s)) == Fields(s)
  {
    var k := Span(s, IsSpace);
    SpanHolds(s, IsSpace);
    FieldsTrimRight(s[k..]);
    assert s == s[..k] + s[k..];
    FieldsSkip(s[..k], s[k..]);
  }

  lemma FieldsBeforeBlanks(s: string, trail: string)
    requires AllBlanks(trail)
    ensures Fields(s + trail) == Fields(s)
  {
    if trail == "" {
      assert s + trail == s;
    } else {
      assert s + trail == s + [trail[0]] + trail[1..];
      FieldsAcross(s, trail[0], trail[1..]);
      FieldsOfBlank(trail[1..]);
    }
  }

  /** The parameters, split at the address. */
  lemma ParamsSplit(d: Directive) returns (addr: string, rest: string)
    requires IsDirective(d) && Fields(d.params) != [] && All(d.params, TidyChar) && AllBlanks(d.trail)
    ensures d.params == addr + rest && addr == Fields(d.params)[0] && IsField(addr) && BlankStart(rest + d.trail)
    ensures !IsReSpace(d.params[0])
    ensures Fields(rest + d.trail) == Fields(d.params)[1..]
  {
    if IsBlank(d.params[0]) { FieldsOfBlank(d.params); }
    SpanIs(d.params, IsSpace, 0);
    var n := Span(d.params, NotSpace);
    assert d.params[0..] == d.params;
    SplitField(d.params, 0, n);
    addr, rest := d.params[..n], d.params[n..];
    FieldsBeforeBlanks(rest, d.trail);
    ConsTail(addr, Fields(rest));
  }

  lemma ServerTrimmed(line: string, d: Directive) returns (x: string)
    requires line == Print(d) && IsDirective(d)
    ensures TrimSpace(line) == SERVER + (d.gap + (d.params + d.trail) + (";" + x)) && HasPrefix(TrimSpace(line), SERVER)
  {
    var between := d.gap + (d.params + d.trail);
    var u := SERVER + (between + ";");
    LineAround(d, line, between, u);
    BlanksAreSpaces(d.indent);
    TrimKeeps(d.indent, u, d.tail, line);
    x := TrimSpace(line)[|u|..];
    TrimmedForm(TrimSpace(line), u, between, x);
  }

  /** What the scanner makes of the text between the word and the semicolon. */
  lemma BetweenIs(d: Directive, between: string, addr: string)
    requires IsDirective(d) && All(d.params, TidyChar) && between == d.gap + (d.params + d.trail)
    requires Fields(d.params) != [] && addr == Fields(d.params)[0] && IsAddress(addr)
    ensures Span(between, IsReSpace) > 0
    ensures var b := BackendIn(SkipRe(between));
      && b != None && b.value.down == HasDown(d.params)
      && b.value.host == addr[..IndexOf(addr, ':')] && b.value.port == Port(addr[IndexOf(addr, ':') + 1..])
  {
    var first, rest := ParamsSplit(d);
    BlanksAreSpaces(d.gap);
    GapSkipped(d.gap, d.params, d.trail, between);
    Associative(addr, rest, d.trail);
    AfterAddress(addr, rest + d.trail, Fields(d.params));
  }

  lemma AfterAddress(addr: string, rest: string, fields: seq<string>)
    requires IsAddress(addr) && IsField(addr) && BlankStart(rest)
    requires fields != [] && fields[0] == addr && Fields(rest) == fields[1..]
    ensures var b := BackendIn(addr + rest);
      && b != None && b.value.down == (DOWN in fields)
      && b.value.host == addr[..IndexOf(addr, ':')] && b.value.port == Port(addr[IndexOf(addr, ':') + 1..])
  {
    BackendInIs(addr, rest);
    FieldsTrim(rest);
    DownIsLater(fields);
  }

  /** What the scanner reads from a server line: its address, and whether the word `down` is among the parameters. */
  lemma ServerBackend(line: string, d: Directive, addr: string)
    requires ServerLine(line) && ParseDirective(line) == Some(d) && addr == Fields(d.params)[0]
    ensures var b := Backend(TrimSpace(line));
      && b != None && b.value.down == HasDown(d.params)
      && b.value.host == addr[..IndexOf(addr, ':')] && b.value.port == Port(addr[IndexOf(addr, ':') + 1..])
    ensures HasPrefix(TrimSpace(line), SERVER)
  {
    DirectiveParsed(line);
    PartsTidy(d, line);
    var x := ServerTrimmed(line, d);
    var between := d.gap + (d.params + d.trail);
    BetweenIs(d, between, addr);
    NoSemiBetween(d, between);
    BackendOf(between, x, TrimSpace(line));
  }

  lemma NoSemiBetween(d: Directive, between: string)
    requires IsDirective(d) && between == d.gap + (d.params + d.trail)
    ensures ';' !in between
  {
  }

  lemma GapSkipped(gap: string, params: string, trail: string, between: string)
    requires between == gap + (params + trail) && All(gap, IsReSpace) && gap != "" && params != "" &&
      !IsReSpace(params[0])
    ensures Span(between, IsReSpace) > 0 && SkipRe(between) == params + trail
  {
    assert (params + trail)[0] == params[0];
    SkipReIs(gap, params + trail);
    assert between[0] == gap[0];
  }

  lemma DownIsLater(fields: seq<string>)
    requires fields != [] && IsAddress(fields[0])
    ensures DOWN in fields <==> DOWN in fields[1..]
  {
    HeadTail(fields);
    AddressNotDown(fields[0]);
  }

  lemma PartsTidy(d: Directive, line: string)
    requires line == Print(d) && All(line, TidyChar)
    ensures All(d.params, TidyChar) && All(d.indent, TidyChar) && All(d.tail, TidyChar)
  {
    AllParts(d.indent, SERVER + (d.gap + (d.params + (d.trail + (";" + d.tail)))), TidyChar);
    AllParts(SERVER, d.gap + (d.params + (d.trail + (";" + d.tail))), TidyChar);
    AllParts(d.gap, d.params + (d.trail + (";" + d.tail)), TidyChar);
    AllParts(d.params, d.trail + (";" + d.tail), TidyChar);
    AllParts(d.trail, ";" + d.tail, TidyChar);
    AllParts(";", d.tail, TidyChar);
  }

  lemma AllParts(a: string, b: string, p: char -> bool)
    ensures All(a + b, p) <==> All(a, p) && All(b, p)
  {
    if All(a + b, p) {
      assert forall i :: 0 <= i < |a| ==> (a + b)[i] == a[i];
      assert forall i :: 0 <= i < |b| ==> (a + b)[|a| + i] == b[i];
    }
  }

  lemma LineAround(d: Directive, line: string, between: string, u: string)
    requires line == Print(d) && between == d.gap + (d.params + d.trail) && u == SERVER + (between + ";")
    ensures line == d.indent + u + d.tail && Tight(u)
  {
    PrintGrouped(d);
    assert (d.params + d.trail) + (";" + d.tail) == (d.params + d.trail) + ";" + d.tail;
    assert u[0] == SERVER[0] && u[|u| - 1] == ';';
  }

  lemma TrimmedForm(t: string, u: string, between: string, x: string)
    requires HasPrefix(t, u) && u == SERVER + (between + ";") && x == t[|u|..]
    ensures t == SERVER + (between + (";" + x)) && HasPrefix(t, SERVER)
  {
    assert t == u + x;
  }

  // ---- editing a server line keeps it one ----

  lemma {:induction false} KeepFirst(fields: seq<string>)
    requires fields != [] && NotDown(fields[0])
    ensures Keep(fields) != [] && Keep(fields)[0] == fields[0]
  {
  }

  lemma AddressNotDown(s: string)
    requires IsAddress(s)
    ensures NotDown(s)
  {
    assert ':' !in DOWN;
  }

  lemma NewParamsTidy(params: string, down: bool)
    requires All(params, TidyChar)
    ensures All(NewParams(params, down), TidyChar)
  {
    if down {
      AllParts(params + " ", DOWN, TidyChar);
      AllParts(params, " ", TidyChar);
    } else {
      FieldsChars(params, TidyChar);
      KeepChars(Fields(params), TidyChar);
      JoinChars(Keep(Fields(params)), " ", TidyChar);
    }
  }

  lemma RewrittenTidy(d: Directive, down: bool, line: string)
    requires line == Print(d) && All(line, TidyChar)
    ensures All(Rewritten(d, down), TidyChar)
  {
    PartsTidy(d, line);
    NewParamsTidy(d.params, down);
    AllParts(";", d.tail, TidyChar);
    AllParts(NewParams(d.params, down), ";" + d.tail, TidyChar);
    AllParts(" ", NewParams(d.params, down) + (";" + d.tail), TidyChar);
    AllParts(SERVER, " " + (NewParams(d.params, down) + (";" + d.tail)), TidyChar);
    AllParts(d.indent, SERVER + (" " + (NewParams(d.params, down) + (";" + d.tail))), TidyChar);
  }

  lemma {:induction false} NoBraceIs(s: string)
    ensures All(s, NoBrace) <==> Braces(s) == ""
  {
    if s != "" {
      NoBraceIs(s[1..]);
      HeadTail(s);
      AllParts([s[0]], s[1..], NoBrace);
    }
  }

  /** The edited line is a server line with the same address, up or down as asked. */
  lemma ServerEdited(line: string, down: bool, d: Directive)
    requires ServerLine(line) && ParseDirective(line) == Some(d)
    ensures ServerLine(EditLine(line, down))
    ensures var e := ParseDirective(EditLine(line, down));
      e != None && HasDown(e.value.params) == down && Fields(e.value.params)[0] == Fields(d.params)[0]
  {
    if HasDown(d.params) != down {
      DirectiveParsed(line);
      RewrittenTidy(d, down, line);
      NoBraceIs(line);
      NoBraceIs(EditLine(line, down));
      BracesEdit(line, down);
      AddressNotDown(Fields(d.params)[0]);
      if down {
        MarkLine(line, d);
        Head(Fields(d.params), [DOWN]);
      } else {
        KeepFirst(Fields(d.params));
        ClearLine(line, d);
      }
    }
  }

  lemma Head(s: seq<string>, t: seq<string>)
    requires s != []
    ensures s + t != [] && (s + t)[0] == s[0]
  {
  }

  lemma BodyEdited(line: string, down: bool)
    requires BodyLine(line)
    ensures BodyLine(EditLine(line, down)) && (ServerLine(line) ==> ServerLine(EditLine(line, down)))
  {
    if ServerLine(line) {
      ServerEdited(line, down, ParseDirective(line).value);
    } else {
      QuietIsNoServer(line);
    }
  }
}
