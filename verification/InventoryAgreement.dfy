/** What the toggle finds in a laid-out configuration, and that it agrees with
    what the scanner reports, through any sequence of toggles. */
module InventoryAgreement {
  import opened Text
  import opened PoolToggle
  import opened PoolToggleProofs
  import opened InventoryProofs
  import opened InventoryScan

  // ---- lines that open no block of a given name ----

  ghost predicate NeverOpens(line: string, name: string) {
    NL !in line && forall rest :: HeaderEnd(line + ([NL] + rest), name) == None
  }

  ghost predicate NoneOpens(lines: seq<string>, name: string) {
    forall i :: 0 <= i < |lines| ==> NeverOpens(lines[i], name)
  }

  lemma NotUpstreamNeverOpens(line: string, name: string)
    requires OtherLine(line)
    ensures NeverOpens(line, name)
  {
    forall rest ensures HeaderEnd(line + ([NL] + rest), name) == None {
      NotUpstreamNoHeader(line, line + ([NL] + rest), rest, name);
    }
  }

  lemma NotUpstreamNoHeader(line: string, s: string, rest: string, name: string)
    requires OtherLine(line) && s == line + ([NL] + rest)
    ensures HeaderEnd(s, name) == None
  {
    var word := SkipBlanks(s, 0);
    if At(s, word, UPSTREAM) {
      WithinLine(line, s, rest, word, UPSTREAM);
      WordsTight();
      WordLeads(line, word, UPSTREAM);
    }
  }

  lemma WithinLine(line: string, s: string, rest: string, i: nat, word: string)
    requires s == line + ([NL] + rest) && At(s, i, word) && Blanks(s, 0, i) && NL !in word && word != ""
    ensures i <= |line| && Blanks(line, 0, i) && HasPrefix(line[i..], word)
  {
    assert s[|line|] == NL;
    assert forall k :: 0 <= k < |word| ==> s[i + k] == word[k];
    forall k | i <= k < i + |word| ensures s[k] != NL { assert s[k] == word[k - i]; }
    assert forall k :: 0 <= k < i ==> line[k] == s[k];
    assert line[i..][..|word|] == s[i..i + |word|];
  }

  /** The opening line of a block is a header for no other name. */
  lemma OtherNameNeverOpens(b: Item, name: string)
    requires b.Block? && GoodFrame(b) && IsName(name) && name != b.name
    ensures NeverOpens(OpenLine(b), name)
  {
    OpenIsLine(b.indent, b.gap, b.name, b.sp, b.tail);
    forall rest ensures HeaderEnd(OpenLine(b) + ([NL] + rest), name) == None {
      var s := OpenLine(b) + ([NL] + rest);
      Unfolded(b, [NL] + rest, s);
      OtherNameNoHeader(b.indent, b.gap, b.name, b.sp + "{" + (b.tail + ([NL] + rest)), s, name);
    }
  }

  lemma Unfolded(b: Item, rest: string, s: string)
    requires b.Block? && s == OpenLine(b) + rest
    ensures s == b.indent + (UPSTREAM + (b.gap + (b.name + (b.sp + "{" + (b.tail + rest)))))
  {
  }

  predicate Ends(s: string) { s != "" && !NameChar(s[0]) }

  lemma OtherNameNoHeader(indent: string, gap: string, own: string, rest: string, s: string, name: string)
    requires AllBlanks(indent) && AllBlanks(gap) && gap != "" && IsName(own) && IsName(name) && name != own &&
      Ends(rest)
    requires s == indent + (UPSTREAM + (gap + (own + rest)))
    ensures HeaderEnd(s, name) == None
  {
    var at := |indent| + 8 + |gap|;
    HeadAt(indent, gap, own + rest, s);
    OwnLead(indent, gap, own + rest, s);
    SkipBlanksIs(name, 0, 0);
    if At(s, at, name) { OtherNameGoesOn(own, rest, s, name, at); }
    NoBraceAfter(s, name, |indent|, at);
  }

  /** No match when the name does not stand there, or something other than a brace follows it. */
  lemma NoBraceAfter(s: string, name: string, word: nat, at: nat)
    requires word + 8 <= |s| && SkipBlanks(s, 0) == word && SkipBlanks(s, word + 8) == at && SkipBlanks(name, 0) == 0
    requires At(s, at, name) ==>
      at + |name| < |s| && SkipBlanks(s, at + |name|) == at + |name| && s[at + |name|] != '{'
    ensures HeaderEnd(s, name) == None
  {
  }

  /** Where another name matches, the pool's own name goes on. */
  lemma OtherNameGoesOn(own: string, rest: string, s: string, name: string, at: nat)
    requires IsName(own) && IsName(name) && name != own && Ends(rest)
    requires at <= |s| && s[at..] == own + rest && At(s, at, name)
    ensures at + |name| < |s| && SkipBlanks(s, at + |name|) == at + |name| && s[at + |name|] != '{'
  {
    assert s[at..at + |name|] == s[at..][..|name|];
    LongerThan(own, rest, name);
    AfterName(own, rest, name);
    assert s[at + |name|] == s[at..][|name|];
    SkipBlanksIs(s, at + |name|, at + |name|);
  }

  /** Where the pieces before the name are. */
  lemma HeadAt(indent: string, gap: string, rest: string, s: string)
    requires AllBlanks(indent) && AllBlanks(gap) && gap != "" && rest != "" && !IsBlank(rest[0])
    requires s == indent + (UPSTREAM + (gap + rest))
    ensures SkipBlanks(s, 0) == |indent| && At(s, |indent|, UPSTREAM)
    ensures SkipBlanks(s, |indent| + 8) == |indent| + 8 + |gap|
  {
    WordAfter(indent, UPSTREAM, gap + rest, s);
    assert s == (indent + UPSTREAM) + (gap + rest);
    BlanksAfter(indent + UPSTREAM, gap, rest, s);
  }

  lemma WordAfter(indent: string, word: string, rest: string, s: string)
    requires AllBlanks(indent) && word != "" && !IsBlank(word[0]) && s == indent + (word + rest)
    ensures SkipBlanks(s, 0) == |indent| && At(s, |indent|, word)
  {
    assert s[|indent|] == word[0];
    assert forall i :: 0 <= i < |indent| ==> s[i] == indent[i];
    SkipBlanksIs(s, 0, |indent|);
    assert s[|indent|..|indent| + |word|] == word;
  }

  lemma BlanksAfter(before: string, gap: string, rest: string, s: string)
    requires AllBlanks(gap) && rest != "" && !IsBlank(rest[0]) && s == before + (gap + rest)
    ensures SkipBlanks(s, |before|) == |before| + |gap|
  {
    assert s[|before| + |gap|] == rest[0];
    assert forall i :: |before| <= i < |before| + |gap| ==> s[i] == gap[i - |before|];
    SkipBlanksIs(s, |before|, |before| + |gap|);
  }

  lemma LongerThan(own: string, rest: string, name: string)
    requires IsName(own) && IsName(name) && Ends(rest) && |name| <= |own + rest| && (own + rest)[..|name|] == name
    ensures |name| <= |own|
  {
    assert forall i :: 0 <= i < |name| ==> name[i] == (own + rest)[i];
    assert (own + rest)[|own|] == rest[0];
  }

  lemma AfterName(own: string, rest: string, name: string)
    requires IsName(own) && Ends(rest) && |name| <= |own| && (own + rest)[..|name|] == name && name != own
    ensures |name| < |own| && (own + rest)[|name|] == own[|name|] && NameChar(own[|name|])
  {
    assert (own + rest)[..|own|] == own;
  }

  // ---- the opening line of the block itself ----

  lemma OwnNameOpens(b: Item, rest: string)
    requires b.Block? && GoodFrame(b)
    ensures HeaderEnd(OpenHead(b) + rest, b.name) == Some(|OpenHead(b)|)
  {
    OwnOpens(b, rest, OpenHead(b), OpenHead(b) + rest);
  }

  lemma OwnOpens(b: Item, rest: string, head: string, s: string)
    requires b.Block? && GoodFrame(b) && head == OpenHead(b) && s == head + rest
    ensures HeaderEnd(s, b.name) == Some(|head|)
  {
    FrameIs(b);
    OwnUnfolded(b, rest, head, s);
    OwnEnd(b.indent, b.gap, b.name, b.sp, rest, s);
  }

  lemma FrameIs(b: Item)
    requires b.Block? && GoodFrame(b)
    ensures AllBlanks(b.indent) && AllBlanks(b.gap) && b.gap != "" && IsName(b.name) && AllBlanks(b.sp)
  {
  }

  lemma OwnEnd(indent: string, gap: string, name: string, sp: string, rest: string, s: string)
    requires AllBlanks(indent) && AllBlanks(gap) && gap != "" && IsName(name) && AllBlanks(sp)
    requires s == indent + (UPSTREAM + (gap + (name + (sp + "{" + rest))))
    ensures HeaderEnd(s, name) == Some(|indent| + 8 + |gap| + |name| + |sp| + 1)
  {
    OwnHeader(indent, gap, name, sp, rest, s);
    NameIsNamed(name);
    HeaderIsMatch(s, name, HeaderAt(indent, gap, name, sp));
  }

  function HeaderAt(indent: string, gap: string, name: string, sp: string): Header {
    var at := |indent| + 8 + |gap|;
    Header(|indent|, at, at + |name|, at + |name| + |sp| + 1)
  }

  lemma OwnUnfolded(b: Item, rest: string, head: string, s: string)
    requires b.Block? && head == OpenHead(b) && s == head + rest
    ensures s == b.indent + (UPSTREAM + (b.gap + (b.name + (b.sp + "{" + rest))))
    ensures |head| == |b.indent| + 8 + |b.gap| + |b.name| + |b.sp| + 1
  {
  }

  lemma OwnHeader(indent: string, gap: string, name: string, sp: string, rest: string, s: string)
    requires AllBlanks(indent) && AllBlanks(gap) && gap != "" && IsName(name) && AllBlanks(sp)
    requires s == indent + (UPSTREAM + (gap + (name + (sp + "{" + rest))))
    ensures IsHeader(s, name, HeaderAt(indent, gap, name, sp))
  {
    OwnLead(indent, gap, name + (sp + "{" + rest), s);
    OwnTail(name, sp, rest, s, |indent| + 8 + |gap|);
  }

  lemma OwnTail(name: string, sp: string, rest: string, s: string, at: nat)
    requires at <= |s| && s[at..] == name + (sp + "{" + rest) && AllBlanks(sp)
    ensures var after := at + |name|;
      && after + |sp| < |s| && s[at..after] == name
      && Blanks(s, after, after + |sp|) && s[after + |sp|] == '{'
  {
    var t, after := s[at..], at + |name|;
    assert s[at..after] == t[..|name|] == name;
    assert s[after + |sp|] == t[|name| + |sp|] == '{';
    forall i | after <= i < after + |sp| ensures IsBlank(s[i]) {
      assert s[i] == t[i - at] == sp[i - after];
    }
  }

  lemma OwnLead(indent: string, gap: string, rest: string, s: string)
    requires AllBlanks(indent) && AllBlanks(gap) && s == indent + (UPSTREAM + (gap + rest))
    ensures |s| == |indent| + 8 + |gap| + |rest| && s[|indent|..|indent| + 8] == UPSTREAM
    ensures Blanks(s, 0, |indent|) && Blanks(s, |indent| + 8, |indent| + 8 + |gap|)
    ensures s[|indent| + 8 + |gap|..] == rest
  {
    assert s[|indent| + 8 + |gap|..] == rest;
    assert s[|indent|..|indent| + 8] == UPSTREAM;
    assert forall i :: 0 <= i < |indent| ==> s[i] == indent[i];
    assert forall i :: |indent| + 8 <= i < |indent| + 8 + |gap| ==> s[i] == gap[i - |indent| - 8];
  }

  // ---- finding the block in the text ----

  lemma {:induction false} FindAfter(before: seq<string>, head: string, rest: string, name: string)
    requires NoneOpens(before, name)
    requires HeaderEnd(head + rest, name) == Some(|head|)
    ensures FindHeader(Unlines(before + [head]) + rest, name) == Some(|Unlines(before + [head])|)
  {
    if before == [] {
      assert before + [head] == [head];
      FoundHere(head + rest, HeaderOf(name));
    } else {
      FindAfter(before[1..], head, rest, name);
      HeadTail(before);
      FindNext(before[0], before[1..] + [head], rest, HeaderOf(name));
      Associative([before[0]], before[1..], [head]);
    }
  }

  lemma FoundHere(s: string, matches: string -> Option<nat>)
    requires matches(s) != None
    ensures FindLine(s, matches) == matches(s)
  {
  }

  lemma FindNext(line: string, lines: seq<string>, rest: string, matches: string -> Option<nat>)
    requires NL !in line && lines != [] && matches(line + ([NL] + (Unlines(lines) + rest))) == None
    requires FindLine(Unlines(lines) + rest, matches) == Some(|Unlines(lines)|)
    ensures FindLine(Unlines([line] + lines) + rest, matches) == Some(|Unlines([line] + lines)|)
  {
    UnlinesCons(line, lines);
    SkipLine(line, Unlines(lines) + rest, matches);
    Grouping(line, Unlines(lines), rest);
  }

  lemma Grouping(line: string, text: string, rest: string)
    ensures line + ([NL] + text) + rest == line + ([NL] + (text + rest))
  {
  }

  lemma UnlinesCons(line: string, lines: seq<string>)
    requires lines != []
    ensures Unlines([line] + lines) == line + ([NL] + Unlines(lines))
  {
    ConsTail(line, lines);
    assert line + [NL] + Unlines(lines) == line + ([NL] + Unlines(lines));
  }

  lemma SkipLine(line: string, rest: string, matches: string -> Option<nat>)
    requires NL !in line && matches(line + ([NL] + rest)) == None
    ensures FindLine(line + ([NL] + rest), matches) == Shifted(FindLine(rest, matches), |line| + 1)
  {
    BreakAfter(line, rest, line + ([NL] + rest));
    FindLineStep(line + ([NL] + rest), |line|, matches);
  }

  lemma BreakAfter(line: string, rest: string, s: string)
    requires NL !in line && s == line + ([NL] + rest)
    ensures IndexOf(s, NL) == |line| < |s| && s[|line| + 1..] == rest
  {
    assert s == line + [NL] + rest;
    Around(line, NL, rest);
    IndexOfIs(s, NL, |line|);
  }

  /** The text of a weld is the two texts run together. */
  lemma {:induction false} UnlinesWeld(p: seq<string>, q: seq<string>)
    requires p != [] && q != []
    ensures Unlines(Weld(p, q)) == Unlines(p) + Unlines(q)
  {
    if |p| == 1 {
      assert Weld(p, q) == [p[0] + q[0]] + q[1..];
      if |q| > 1 {
        UnlinesCons(p[0] + q[0], q[1..]);
        UnlinesCons(q[0], q[1..]);
        HeadTail(q);
        assert p[0] + q[0] + ([NL] + Unlines(q[1..])) == p[0] + (q[0] + ([NL] + Unlines(q[1..])));
      }
    } else {
      UnlinesWeld(p[1..], q);
      HeadTail(p);
      WeldAfter([p[0]], p[1..], q);
      UnlinesCons(p[0], p[1..]);
      UnlinesCons(p[0], Weld(p[1..], q));
      assert p[0] + ([NL] + Unlines(p[1..])) + Unlines(q) == p[0] + ([NL] + (Unlines(p[1..]) + Unlines(q)));
    }
  }

  // ---- the three parts of a text around a block ----

  function LinesBefore(items: seq<Item>, k: nat): seq<string>
    requires k < |items| && items[k].Block?
  {
    ItemLines(items[..k]) + [OpenHead(items[k])]
  }

  function LinesWithin(b: Item): seq<string>
    requires b.Block?
  {
    [b.tail] + b.body + [b.lead]
  }

  function LinesBehind(items: seq<Item>, k: nat): seq<string>
    requires k < |items| && items[k].Block?
  {
    ["}" + items[k].trail] + ItemLines(items[k + 1..])
  }

  lemma Parts(items: seq<Item>, k: nat)
    requires k < |items| && items[k].Block?
    ensures ItemLines(items) == Weld(Weld(LinesBefore(items, k), LinesWithin(items[k])), LinesBehind(items, k))
  {
    var b := items[k];
    assert items == items[..k + 1] + items[k + 1..];
    FlatMapConcat(items[..k + 1], items[k + 1..], LinesIn);
    FlatMapSnoc(items, k, LinesIn);
    WeldBlock(ItemLines(items[..k]), OpenHead(b), b.tail, b.body, b.lead, "}" + b.trail, ItemLines(items[k + 1..]));
  }

  lemma WeldBlock(before: seq<string>, head: string, tail: string, body: seq<string>, lead: string, close: string,
                  after: seq<string>)
    ensures Weld(Weld(before + [head], [tail] + body + [lead]), [close] + after)
      == before + ([head + tail] + body + [lead + close]) + after
  {
    var m := [tail] + body + [lead];
    var w := Weld(before + [head], m);
    assert w == before + [head + tail] + (body + [lead]);
    assert w[..|w| - 1] == before + [head + tail] + body && w[|w| - 1] == lead;
  }

  lemma TextParts(items: seq<Item>, k: nat)
    requires k < |items| && items[k].Block?
    ensures TextOf(items) ==
      Unlines(LinesBefore(items, k)) + Unlines(LinesWithin(items[k])) + Unlines(LinesBehind(items, k))
  {
    Parts(items, k);
    var w := Weld(LinesBefore(items, k), LinesWithin(items[k]));
    UnlinesWeld(w, LinesBehind(items, k));
    UnlinesWeld(LinesBefore(items, k), LinesWithin(items[k]));
  }

  // ---- what the toggle finds ----

  lemma BodyNeverOpens(line: string, name: string)
    requires BodyLine(line)
    ensures NeverOpens(line, name)
  {
    if ServerLine(line) {
      var d := ParseDirective(line).value;
      ServerBackend(line, d, Fields(d.params)[0]);
      ServerIsOther(line);
    }
    NotUpstreamNeverOpens(line, name);
  }

  lemma ServerIsOther(line: string)
    requires ServerLine(line) && HasPrefix(TrimSpace(line), SERVER)
    ensures OtherLine(line)
  {
    assert TrimSpace(line)[0] == SERVER[0];
    DiffersAt(TrimSpace(line), UPSTREAM, 0);
  }

  lemma CloseNeverOpens(lead: string, trail: string, name: string)
    requires AllBlanks(lead) && AllBlanks(trail)
    ensures NeverOpens(lead + ("}" + trail), name)
  {
    BlanksAreSpaces(lead);
    BlanksAreSpaces(trail);
    assert lead + ("}" + trail) == lead + "}" + trail;
    TrimKeeps(lead, "}", trail, lead + ("}" + trail));
    DiffersAt("}", UPSTREAM, 0);
    NotUpstreamNeverOpens(lead + ("}" + trail), name);
  }

  lemma NoneOpensConcat(a: seq<string>, b: seq<string>, name: string)
    requires NoneOpens(a, name) && NoneOpens(b, name)
    ensures NoneOpens(a + b, name)
  {
  }

  lemma ItemNeverOpens(item: Item, name: string)
    requires GoodItem(item) && IsName(name) && (item.Block? ==> item.name != name)
    ensures NoneOpens(LinesIn(item), name)
  {
    if item.Block? {
      OtherNameNeverOpens(item, name);
      forall i | 0 <= i < |item.body| ensures NeverOpens(item.body[i], name) { BodyNeverOpens(item.body[i], name); }
      CloseNeverOpens(item.lead, item.trail, name);
      NoneOpensConcat([OpenLine(item)], item.body, name);
      NoneOpensConcat([OpenLine(item)] + item.body, [CloseLine(item)], name);
    } else {
      NotUpstreamNeverOpens(item.line, name);
    }
  }

  lemma {:induction false} ItemsNeverOpen(items: seq<Item>, name: string)
    requires Every(items, GoodItem) && IsName(name)
    requires forall i :: 0 <= i < |items| && items[i].Block? ==> items[i].name != name
    ensures NoneOpens(ItemLines(items), name)
  {
    if items != [] {
      ItemNeverOpens(items[0], name);
      ItemsNeverOpen(items[1..], name);
      NoneOpensConcat(LinesIn(items[0]), ItemLines(items[1..]), name);
    }
  }

  lemma {:induction false} UnlinesNoBrace(lines: seq<string>)
    requires Every(lines, Braceless)
    ensures All(Unlines(lines), NoBrace)
  {
    JoinChars(lines, [NL], NoBrace);
  }

  predicate Braceless(line: string) { NL !in line && All(line, NoBrace) }

  lemma WithinNoBrace(b: Item)
    requires GoodItem(b) && b.Block?
    ensures All(Unlines(LinesWithin(b)), NoBrace) && Every(LinesWithin(b), Braceless)
  {
    BlanksAreSpaces(b.tail);
    BlanksAreSpaces(b.lead);
    BodyBraceless(b.body);
    EveryConcat([b.tail], b.body, Braceless);
    EveryConcat([b.tail] + b.body, [b.lead], Braceless);
    UnlinesNoBrace(LinesWithin(b));
  }

  lemma BodyBraceless(body: seq<string>)
    requires Every(body, BodyLine)
    ensures Every(body, Braceless)
  {
    forall i | 0 <= i < |body| ensures Braceless(body[i]) { assert BodyLine(body[i]); }
  }

  lemma ClosesAt(within: string, behind: string)
    requires All(within, NoBrace) && behind != "" && behind[0] == '}'
    ensures CloseAt(within + behind, 1) == Some(|within|)
  {
    NoBraceIs(within);
    WalkBraces(within, 1);
    WalkCloses(within, behind, 1);
  }

  lemma UnlinesHead(line: string, lines: seq<string>)
    requires line != ""
    ensures var s := Unlines([line] + lines); s != "" && s[0] == line[0]
  {
    if lines != [] { UnlinesCons(line, lines); }
  }

  lemma NameIsNamed(name: string)
    requires IsName(name)
    ensures Named(name)
  {
    TrimTight(name);
  }

  ghost predicate Found(conf: string, name: string, before: string, within: string, behind: string) {
    && conf == before + within + behind
    && Locate(conf, name) == Some((|before|, |before| + |within|))
    && PoolLines(conf, name) == Lines(within)
  }

  lemma FoundAt(conf: string, name: string, before: string, within: string, behind: string)
    requires conf == before + within + behind
    requires FindHeader(before + (within + behind), name) == Some(|before|)
    requires CloseAt(within + behind, 1) == Some(|within|)
    ensures Found(conf, name, before, within, behind)
  {
    ReplacedAt(conf, before, within, behind, name, |before|);
  }

  /** The toggle finds exactly the body of the block of that name. */
  lemma FindsBlock(items: seq<Item>, k: nat)
    requires WellFormed(items) && k < |items| && items[k].Block?
    ensures Found(TextOf(items), items[k].name, Unlines(LinesBefore(items, k)), Unlines(LinesWithin(items[k])),
      Unlines(LinesBehind(items, k)))
    ensures PoolLines(TextOf(items), items[k].name) == LinesWithin(items[k])
  {
    var b := items[k];
    var within, behind := Unlines(LinesWithin(b)), Unlines(LinesBehind(items, k));
    TextParts(items, k);
    WithinNoBrace(b);
    SplitJoin(LinesWithin(b), NL);
    UnlinesHead("}" + b.trail, ItemLines(items[k + 1..]));
    ClosesAt(within, behind);
    HeaderAtBlock(items, k, within + behind);
    FoundAt(TextOf(items), b.name, Unlines(LinesBefore(items, k)), within, behind);
  }

  lemma HeaderAtBlock(items: seq<Item>, k: nat, rest: string)
    requires WellFormed(items) && k < |items| && items[k].Block?
    ensures FindHeader(Unlines(LinesBefore(items, k)) + rest, items[k].name) == Some(|Unlines(LinesBefore(items, k))|)
  {
    var b := items[k];
    forall i | 0 <= i < k && items[..k][i].Block? ensures items[..k][i].name != b.name {
      assert items[..k][i] == items[i];
    }
    ItemsNeverOpen(items[..k], b.name);
    OwnNameOpens(b, rest);
    FindAfter(ItemLines(items[..k]), OpenHead(b), rest, b.name);
  }
}
