/** What an edit of the text guarantees: the block stays where it is, the edit
    can be read back, repeated and undone, and nothing else is touched. */
module PoolToggleProofs {
  import opened Text
  import opened PoolToggle

  // ---- one line ----

  predicate NotSemi(c: char) { c != ';' }

  lemma {:induction false} KeepMembers(fields: seq<string>)
    requires Every(fields, IsField)
    ensures Every(Keep(fields), IsField) && DOWN !in Keep(fields)
  {
    if fields != [] {
      assert IsField(fields[0]);
      assert forall i :: 0 <= i < |fields[1..]| ==> fields[1..][i] == fields[i + 1];
      KeepMembers(fields[1..]);
    }
  }

  lemma {:induction false} KeepChars(fields: seq<string>, p: char -> bool)
    requires forall i :: 0 <= i < |fields| ==> All(fields[i], p)
    ensures forall i :: 0 <= i < |Keep(fields)| ==> All(Keep(fields)[i], p)
  {
    if fields != [] { KeepChars(fields[1..], p); }
  }

  /** A text joined from fields starts and ends on text. */
  lemma {:induction false} JoinEnds(fields: seq<string>)
    requires fields != [] && Every(fields, IsField)
    ensures var s := Join(fields, " "); s != "" && !IsSpace(s[0]) && !IsSpace(s[|s| - 1])
  {
    assert IsField(fields[0]);
    assert NotSpace(fields[0][0]) && NotSpace(fields[0][|fields[0]| - 1]);
    if |fields| > 1 {
      assert forall i :: 0 <= i < |fields[1..]| ==> fields[1..][i] == fields[i + 1];
      JoinEnds(fields[1..]);
    }
  }

  /** Every word of the parameters is `down`, and there is one. Clearing such a line leaves no server. */
  predicate OnlyDown(line: string) {
    match ParseDirective(line)
    case None => false
    case Some(d) => HasDown(d.params) && Keep(Fields(d.params)) == []
  }

  /** The directive a rewritten line parses to. */
  ghost function Marked(d: Directive): Directive
    requires d.params != ""
  {
    if IsBlank(d.params[|d.params| - 1]) then d.(gap := " " + d.params + " ", params := DOWN, trail := "")
    else d.(gap := " ", params := d.params + " " + DOWN, trail := "")
  }

  lemma DownField()
    ensures IsField(DOWN) && Fields(DOWN) == [DOWN] && ';' !in DOWN
  {
    FieldsHead("", DOWN, "");
    assert "" + DOWN + "" == DOWN;
    FieldsOfBlank("");
  }

  lemma MarkedIs(d: Directive)
    requires IsDirective(d)
    ensures IsDirective(Marked(d)) && Print(Marked(d)) == Rewritten(d, true)
  {
    DownField();
    var params := d.params + " " + DOWN;
    assert params[0] == d.params[0] && params[|params| - 1] == DOWN[3];
    assert DOWN[0] == 'd' && DOWN[3] == 'n';
    MarkedPrint(d);
  }

  lemma MarkedPrint(d: Directive)
    requires d.params != ""
    ensures Print(Marked(d)) == Rewritten(d, true)
  {
    if IsBlank(d.params[|d.params| - 1]) {
      assert " " + d.params + " " + (DOWN + ("" + (";" + d.tail))) == " " + (d.params + " " + DOWN + (";" + d.tail));
    } else {
      assert d.params + " " + DOWN + ("" + (";" + d.tail)) == d.params + " " + DOWN + (";" + d.tail);
    }
  }

  lemma MarkedFields(d: Directive)
    requires IsDirective(d)
    ensures Fields(Marked(d).params) == Fields(d.params) + [DOWN]
  {
    DownField();
    if IsBlank(d.params[|d.params| - 1]) {
      FieldsOfBlank(d.params);
    } else {
      FieldsAcross(d.params, ' ', DOWN);
    }
  }

  /** Taking an up line down: still a server, with `down` as one more word. */
  lemma MarkLine(line: string, d: Directive)
    requires ParseDirective(line) == Some(d) && !HasDown(d.params)
    ensures ParseDirective(EditLine(line, true)) == Some(Marked(d)) && HasDown(Marked(d).params)
    ensures Fields(Marked(d).params) == Fields(d.params) + [DOWN]
    ensures Marked(d).indent == d.indent && Marked(d).tail == d.tail
  {
    DirectiveParsed(line);
    MarkedIs(d);
    DirectivePrinted(Marked(d));
    MarkedFields(d);
  }

  ghost function Cleared(d: Directive): Directive {
    d.(gap := " ", params := RemoveDown(d.params), trail := "")
  }

  lemma KeptParams(d: Directive)
    requires IsDirective(d)
    ensures Fields(RemoveDown(d.params)) == Keep(Fields(d.params)) && !HasDown(RemoveDown(d.params)) &&
      ';' !in RemoveDown(d.params)
    ensures Keep(Fields(d.params)) != [] ==>
      RemoveDown(d.params) != "" && !IsSpace(RemoveDown(d.params)[0]) &&
        !IsSpace(RemoveDown(d.params)[|RemoveDown(d.params)| - 1])
  {
    var kept := Keep(Fields(d.params));
    FieldsAreFields(d.params);
    KeepMembers(Fields(d.params));
    FieldsJoin(kept);
    KeptNoSemi(d.params);
    if kept != [] { JoinEnds(kept); }
  }

  lemma KeptNoSemi(params: string)
    requires ';' !in params
    ensures ';' !in RemoveDown(params)
  {
    FieldsChars(params, NotSemi);
    KeepChars(Fields(params), NotSemi);
    JoinChars(Keep(Fields(params)), " ", NotSemi);
  }

  lemma ClearedPrint(d: Directive)
    ensures Print(Cleared(d)) == Rewritten(d, false)
  {
    assert RemoveDown(d.params) + ("" + (";" + d.tail)) == RemoveDown(d.params) + (";" + d.tail);
  }

  /** Putting a down line back: a server without the word `down`, unless that was all it said. */
  lemma ClearLine(line: string, d: Directive)
    requires ParseDirective(line) == Some(d) && HasDown(d.params)
    ensures OnlyDown(line) <==> !IsServer(EditLine(line, false))
    ensures !OnlyDown(line) ==>
      && ParseDirective(EditLine(line, false)) == Some(Cleared(d)) && !HasDown(Cleared(d).params)
      && Fields(Cleared(d).params) == Keep(Fields(d.params))
  {
    DirectiveParsed(line);
    KeptParams(d);
    ClearedPrint(d);
    if Keep(Fields(d.params)) != [] {
      DirectivePrinted(Cleared(d));
    } else {
      EmptyServer(d.indent, d.tail, Rewritten(d, false));
    }
  }

  /** `server ;` is not a server directive. */
  lemma EmptyServer(indent: string, tail: string, line: string)
    requires AllBlanks(indent) && line == indent + (SERVER + (" " + ("" + (";" + tail))))
    ensures ParseDirective(line) == None
  {
    var rest := " " + (";" + tail);
    assert " " + ("" + (";" + tail)) == rest;
    SplitsAtWord(indent, rest, line);
    assert rest[..1] == " " && rest[1] == ';';
    IndexOfIs(rest, ';', 1);
    SkipBlanksIs(" ", 0, 1);
  }

  // ---- editing a line twice ----

  /** A second identical edit leaves the line alone and finds nothing to change. */
  lemma EditTwice(line: string, down: bool)
    ensures !Differs(EditLine(line, down), down) && EditLine(EditLine(line, down), down) == EditLine(line, down)
  {
    match ParseDirective(line)
    case None =>
    case Some(d) =>
      if HasDown(d.params) != down {
        if down { MarkLine(line, d); } else { ClearLine(line, d); }
      }
  }

  /** A line is a server after the edit exactly when it was one, except a line that said nothing but `down`. */
  lemma ServerAfter(line: string, down: bool)
    ensures IsServer(EditLine(line, down)) <==> IsServer(line) && (down || !OnlyDown(line))
    ensures IsServer(EditLine(line, down)) ==> (Differs(EditLine(line, down), !down))
  {
    match ParseDirective(line)
    case None =>
    case Some(d) =>
      if HasDown(d.params) != down {
        if down { MarkLine(line, d); } else { ClearLine(line, d); }
      }
  }

  // ---- the braces of a line survive its edit ----

  lemma {:induction false} BracesFields(s: string)
    ensures FlatMap(Fields(s), Braces) == Braces(s)
    decreases |s|
  {
    var skip := Span(s, IsSpace);
    SpanHolds(s, IsSpace);
    if skip == |s| {
      NoBraces(s);
    } else {
      var rest := s[skip..];
      var n := Span(rest, NotSpace);
      SplitField(s, skip, n);
      BracesFields(rest[n..]);
      BracesThree(s, s[..skip], rest[..n], rest[n..]);
      FlatMapCons(rest[..n], Fields(rest[n..]), Braces);
    }
  }

  lemma BracesThree(s: string, blanks: string, field: string, rest: string)
    requires s == blanks + field + rest && All(blanks, IsSpace)
    ensures Braces(s) == Braces(field) + Braces(rest)
  {
    BlanksNoBrace(blanks);
    BracesConcat(blanks + field, rest);
    BracesAfter(blanks, field);
  }

  lemma BlanksNoBrace(s: string)
    requires All(s, IsSpace)
    ensures forall i :: 0 <= i < |s| ==> !IsBrace(s[i])
  {
  }

  lemma FlatMapCons<A, B>(x: A, s: seq<A>, f: A -> seq<B>)
    ensures FlatMap([x] + s, f) == f(x) + FlatMap(s, f)
  {
    ConsTail(x, s);
  }

  lemma {:induction false} BracesKeep(fields: seq<string>)
    ensures FlatMap(Keep(fields), Braces) == FlatMap(fields, Braces)
  {
    if fields != [] {
      BracesKeep(fields[1..]);
      if !NotDown(fields[0]) { NoBraces(DOWN); }
    }
  }

  lemma BracesParams(params: string, down: bool)
    ensures Braces(NewParams(params, down)) == Braces(params)
  {
    if down {
      NoBraces(" " + DOWN);
      BracesConcat(params, " " + DOWN);
      assert params + " " + DOWN == params + (" " + DOWN);
    } else {
      BracesJoin(Keep(Fields(params)), " ");
      BracesKeep(Fields(params));
      BracesFields(params);
    }
  }

  lemma BracesAfter(a: string, rest: string)
    requires forall i :: 0 <= i < |a| ==> !IsBrace(a[i])
    ensures Braces(a + rest) == Braces(rest)
  {
    NoBraces(a);
    BracesConcat(a, rest);
  }

  lemma BracesBefore(a: string, b: string)
    requires forall i :: 0 <= i < |b| ==> !IsBrace(b[i])
    ensures Braces(a + b) == Braces(a)
  {
    NoBraces(b);
    BracesConcat(a, b);
  }

  lemma BracesTail(params: string, tail: string)
    ensures Braces(params + (";" + tail)) == Braces(params) + Braces(tail)
  {
    BracesConcat(params, ";" + tail);
    BracesAfter(";", tail);
  }

  lemma BracesLine(indent: string, gap: string, params: string, tail: string)
    requires AllBlanks(indent) && AllBlanks(gap)
    ensures Braces(indent + (SERVER + (gap + (params + (";" + tail))))) == Braces(params) + Braces(tail)
  {
    BracesTail(params, tail);
    BracesAfterWord(indent, gap, params + (";" + tail));
  }

  lemma BracesAfterWord(indent: string, gap: string, rest: string)
    requires AllBlanks(indent) && AllBlanks(gap)
    ensures Braces(indent + (SERVER + (gap + rest))) == Braces(rest)
  {
    BracesAfter(gap, rest);
    BracesAfter(SERVER, gap + rest);
    BracesAfter(indent, SERVER + (gap + rest));
  }

  lemma BracesDirective(d: Directive)
    requires IsDirective(d)
    ensures Braces(Print(d)) == Braces(d.params) + Braces(d.tail)
  {
    BracesLine(d.indent, d.gap, d.params + d.trail, d.tail);
    PrintGrouped(d);
    BracesBefore(d.params, d.trail);
  }

  lemma PrintGrouped(d: Directive)
    ensures Print(d) == d.indent + (SERVER + (d.gap + ((d.params + d.trail) + (";" + d.tail))))
  {
    assert d.params + (d.trail + (";" + d.tail)) == (d.params + d.trail) + (";" + d.tail);
  }

  lemma BracesEdit(line: string, down: bool)
    ensures Braces(EditLine(line, down)) == Braces(line)
  {
    match ParseDirective(line)
    case None =>
    case Some(d) =>
      DirectiveParsed(line);
      BracesDirective(d);
      BracesLine(d.indent, " ", NewParams(d.params, down), d.tail);
      BracesParams(d.params, down);
  }

  // ---- the block after the edit ----

  lemma {:induction false} BracesLines(lines: seq<string>, down: bool)
    ensures FlatMap(EditLines(lines, down), Braces) == FlatMap(lines, Braces)
  {
    if lines != [] {
      BracesEdit(lines[0], down);
      BracesLines(lines[1..], down);
      EditLinesCons(lines, down);
    }
  }

  lemma EditLinesCons(lines: seq<string>, down: bool)
    requires lines != []
    ensures EditLines(lines, down)[0] == EditLine(lines[0], down)
    ensures EditLines(lines, down)[1..] == EditLines(lines[1..], down)
  {
  }

  lemma BracesBlock(block: string, down: bool)
    ensures Braces(Unlines(EditLines(Lines(block), down))) == Braces(block)
  {
    JoinSplit(block, NL);
    BracesJoin(Lines(block), [NL]);
    BracesJoin(EditLines(Lines(block), down), [NL]);
    BracesLines(Lines(block), down);
  }

  /** No line break enters or leaves a line. */
  lemma EditNoBreak(line: string, down: bool)
    requires NL !in line
    ensures NL !in EditLine(line, down)
  {
    match ParseDirective(line)
    case None =>
    case Some(d) =>
      DirectiveParsed(line);
      PartsNoBreak(d, line);
      NewParamsNoBreak(d.params, down);
  }

  lemma PartsNoBreak(d: Directive, line: string)
    requires line == Print(d) && NL !in line
    ensures NL !in d.indent && NL !in d.params && NL !in d.tail
  {
    var c := d.trail + (";" + d.tail);
    assert NL !in d.params + c && NL !in d.gap + (d.params + c);
  }

  predicate NotBreak(c: char) { c != NL }

  lemma NewParamsNoBreak(params: string, down: bool)
    requires NL !in params
    ensures NL !in NewParams(params, down)
  {
    if !down {
      FieldsChars(params, NotBreak);
      KeepChars(Fields(params), NotBreak);
      JoinChars(Keep(Fields(params)), " ", NotBreak);
    }
  }

  lemma EditedLines(block: string, down: bool)
    ensures Lines(Unlines(EditLines(Lines(block), down))) == EditLines(Lines(block), down)
  {
    SplitParts(block, NL);
    forall i | 0 <= i < |Lines(block)| ensures NL !in EditLines(Lines(block), down)[i] {
      EditNoBreak(Lines(block)[i], down);
    }
    SplitJoin(EditLines(Lines(block), down), NL);
  }

  /** `conf'` is `conf` with the text of the pool's block replaced, and the pool's block of `conf'` is that text. */
  ghost predicate Replaced(conf: string, conf': string, pool: string, open: nat, close: nat, block': string) {
    && 0 < open <= close < |conf| && Locate(conf, pool) == Some((open, close))
    && conf' == conf[..open] + block' + conf[close..]
    && Locate(conf', pool) == Some((open, open + |block'|))
    && conf'[open..open + |block'|] == block'
    && conf'[open + |block'|..] == conf[close..] && conf'[..open] == conf[..open]
  }

  lemma Slices(a: string, b: string, rest: string)
    ensures var c := a + b + rest;
      c[..|a|] == a && c[|a|..|a| + |b|] == b && c[|a| + |b|..] == rest && c[|a|..] == b + rest && c == a + (b + rest)
  {
  }

  lemma LocateFrom(conf: string, pool: string, open: nat, n: nat)
    requires FindHeader(conf, pool) == Some(open) && open <= |conf| && CloseAt(conf[open..], 1) == Some(n)
    ensures Locate(conf, pool) == Some((open, open + n))
  {
  }

  lemma ReplacedCloses(block: string, block': string, rest: string)
    requires Braces(block') == Braces(block) && Walk(block, 1) == Some(1) && rest != "" && rest[0] == '}'
    ensures CloseAt(block' + rest, 1) == Some(|block'|)
  {
    WalkBraces(block, 1);
    WalkBraces(block', 1);
    WalkCloses(block', rest, 1);
  }

  lemma BlockReplaced(conf: string, conf': string, pool: string, open: nat, close: nat, block': string)
    requires Named(pool) && 0 < open <= close < |conf| && Locate(conf, pool) == Some((open, close))
    requires Braces(block') == Braces(conf[open..close])
    requires conf' == conf[..open] + block' + conf[close..]
    ensures Replaced(conf, conf', pool, open, close, block')
  {
    TakeDrop(conf, open);
    HeaderMoves(conf, conf[..open], conf[open..], block' + conf[close..], pool);
    ReplacedCloses(conf[open..close], block', conf[close..]);
    ReplacedAt(conf', conf[..open], block', conf[close..], pool, open);
  }

  lemma ReplacedAt(conf: string, a: string, block: string, rest: string, pool: string, open: nat)
    requires conf == a + block + rest && open == |a|
    requires FindHeader(a + (block + rest), pool) == Some(open) && CloseAt(block + rest, 1) == Some(|block|)
    ensures Locate(conf, pool) == Some((open, open + |block|))
    ensures conf[..open] == a && conf[open..open + |block|] == block && conf[open + |block|..] == rest
  {
    Slices(a, block, rest);
    LocateFrom(conf, pool, open, |block|);
  }

  lemma TakeDrop(s: string, i: nat)
    requires i <= |s|
    ensures s == s[..i] + s[i..]
  {
  }

  lemma HeaderMoves(conf: string, a: string, x: string, y: string, pool: string)
    requires Named(pool) && conf == a + x && FindHeader(conf, pool) == Some(|a|)
    ensures FindHeader(a + y, pool) == Some(|a|)
  {
    HeaderStays(a, x, y, pool);
  }

  /** The same block is found after the edit, holding the edited lines. */
  lemma BlockStays(conf: string, pool: string, down: bool) returns (open: nat, close: nat, lines: seq<string>)
    requires Toggle(conf, pool, down).Toggled?
    ensures Replaced(conf, Toggle(conf, pool, down).config, pool, open, close, Unlines(EditLines(lines, down)))
    ensures lines == Lines(conf[open..close]) && Lines(Unlines(EditLines(lines, down))) == EditLines(lines, down)
    ensures CountServers(lines) > 0
  {
    open, close := Locate(conf, pool).value.0, Locate(conf, pool).value.1;
    lines := Lines(conf[open..close]);
    BracesBlock(conf[open..close], down);
    EditedLines(conf[open..close], down);
    BlockReplaced(conf, Toggle(conf, pool, down).config, pool, open, close, Unlines(EditLines(lines, down)));
  }

  // ---- counting ----

  lemma {:induction false} CountZero(lines: seq<string>, down: bool)
    requires forall i :: 0 <= i < |lines| ==> !Differs(lines[i], down)
    ensures CountDiffering(lines, down) == 0
  {
    if lines != [] { CountZero(lines[..|lines| - 1], down); }
  }

  lemma {:induction false} CountAll(lines: seq<string>, down: bool)
    requires forall i :: 0 <= i < |lines| && IsServer(lines[i]) ==> Differs(lines[i], down)
    ensures CountDiffering(lines, down) == CountServers(lines)
  {
    if lines != [] { CountAll(lines[..|lines| - 1], down); }
  }

  lemma {:induction false} CountPositive(lines: seq<string>)
    ensures CountServers(lines) > 0 <==> exists i :: 0 <= i < |lines| && IsServer(lines[i])
  {
    if lines != [] {
      var pre := lines[..|lines| - 1];
      CountPositive(pre);
      assert forall i :: 0 <= i < |pre| ==> pre[i] == lines[i];
    }
  }

  // ---- what the edit guarantees ----

  /** The pool keeps a server: it is being taken down, or some server says more than `down`. */
  ghost predicate KeepsServer(conf: string, pool: string, down: bool) {
    var lines := PoolLines(conf, pool);
    down || exists i :: 0 <= i < |lines| && IsServer(lines[i]) && !OnlyDown(lines[i])
  }

  lemma EditedAt(lines: seq<string>, down: bool, i: nat)
    requires i < |lines|
    ensures EditLines(lines, down)[i] == EditLine(lines[i], down)
  {
  }

  /** The lines after an edit, as the next edit will see them. */
  lemma AfterEdit(lines: seq<string>, down: bool)
    ensures EditLines(EditLines(lines, down), down) == EditLines(lines, down)
    ensures CountDiffering(EditLines(lines, down), down) == 0
    ensures CountDiffering(EditLines(lines, down), !down) == CountServers(EditLines(lines, down))
    ensures CountServers(EditLines(lines, down)) > 0 <==>
      exists i :: 0 <= i < |lines| && IsServer(lines[i]) && (down || !OnlyDown(lines[i]))
  {
    var after := EditLines(lines, down);
    forall i | 0 <= i < |after|
      ensures !Differs(after[i], down) && EditLine(after[i], down) == after[i]
      ensures IsServer(after[i]) <==> IsServer(lines[i]) && (down || !OnlyDown(lines[i]))
      ensures IsServer(after[i]) ==> Differs(after[i], !down)
    {
      EditedAt(lines, down, i);
      EditTwice(lines[i], down);
      ServerAfter(lines[i], down);
    }
    Unedited(after, down);
    CountZero(after, down);
    CountAll(after, !down);
    CountPositive(after);
  }

  lemma Unedited(lines: seq<string>, down: bool)
    requires forall i :: 0 <= i < |lines| ==> EditLine(lines[i], down) == lines[i]
    ensures EditLines(lines, down) == lines
  {
    forall i | 0 <= i < |lines| ensures EditLines(lines, down)[i] == lines[i] { EditedAt(lines, down, i); }
  }

  /** The pool's lines in the edited text are the edited lines. */
  lemma LinesAfter(conf: string, pool: string, down: bool)
    requires Toggle(conf, pool, down).Toggled?
    ensures PoolLines(Toggle(conf, pool, down).config, pool) == EditLines(PoolLines(conf, pool), down)
    ensures CountServers(PoolLines(conf, pool)) > 0
    ensures Locate(Toggle(conf, pool, down).config, pool) != None
  {
    var open, close, lines := BlockStays(conf, pool, down);
  }

  lemma SameTextAgain(conf: string, pool: string, down: bool)
    requires Toggle(conf, pool, down).Toggled? && EditLines(PoolLines(conf, pool), down) == PoolLines(conf, pool)
    ensures Toggle(conf, pool, down).config == conf
  {
    var (open, close) := Locate(conf, pool).value;
    JoinSplit(conf[open..close], NL);
    ThreePieces(conf, open, close);
  }

  lemma ThreePieces(s: string, i: nat, j: nat)
    requires i <= j <= |s|
    ensures s[..i] + s[i..j] + s[j..] == s
  {
  }

  /** A second identical edit changes nothing and says so, exactly when the pool
      still has a server; a pool whose servers said only `down` has none left
      after being cleared, and the second edit is refused. */
  lemma ToggleTwice(conf: string, pool: string, down: bool)
    requires Toggle(conf, pool, down).Toggled?
    ensures var conf' := Toggle(conf, pool, down).config;
      if KeepsServer(conf, pool, down) then
        Toggle(conf', pool, down) == Toggled(conf', 0, CountServers(PoolLines(conf', pool)))
      else Toggle(conf', pool, down) == Failed(NoServers)
  {
    var conf' := Toggle(conf, pool, down).config;
    LinesAfter(conf, pool, down);
    AfterEdit(PoolLines(conf, pool), down);
    CountPositive(PoolLines(conf, pool));
    ToggleFound(conf', pool, down);
    if KeepsServer(conf, pool, down) { SameTextAgain(conf', pool, down); }
  }

  /** Reading the edited text back reports the requested state exactly when the pool keeps a server. */
  lemma ReadBack(conf: string, pool: string, down: bool)
    requires Toggle(conf, pool, down).Toggled?
    ensures IsDown(Toggle(conf, pool, down).config, pool) == (down, true) <==> KeepsServer(conf, pool, down)
  {
    var conf' := Toggle(conf, pool, down).config;
    LinesAfter(conf, pool, down);
    AfterEdit(PoolLines(conf, pool), down);
    CountPositive(PoolLines(conf, pool));
    ToggleFound(conf', pool, true);
  }

  /** Everything outside the block is unchanged, and inside it every line that is not a server. */
  lemma OnlyServersChange(conf: string, pool: string, down: bool)
    requires Toggle(conf, pool, down).Toggled?
    ensures var (open, close) := Locate(conf, pool).value;
      var conf' := Toggle(conf, pool, down).config;
      && conf'[..open] == conf[..open] && conf[close..] <= conf' [|conf'| - |conf[close..]|..]
      && |PoolLines(conf', pool)| == |PoolLines(conf, pool)|
      && (forall i :: 0 <= i < |PoolLines(conf, pool)| && !IsServer(PoolLines(conf, pool)[i]) ==>
        PoolLines(conf', pool)[i] == PoolLines(conf, pool)[i])
  {
    LinesAfter(conf, pool, down);
    var open, close, lines := BlockStays(conf, pool, down);
    forall i | 0 <= i < |lines| && !IsServer(lines[i]) ensures EditLines(lines, down)[i] == lines[i] {
      EditedAt(lines, down, i);
    }
  }

  // ---- down, then up again ----

  /** An up server line written with single blanks. */
  predicate UpAndCanonical(line: string) {
    match ParseDirective(line)
    case None => false
    case Some(d) => !HasDown(d.params) && d.gap == " " && d.trail == "" && d.params == Join(Fields(d.params), " ")
  }

  lemma {:induction false} KeepSnoc(fields: seq<string>)
    requires DOWN !in fields
    ensures Keep(fields + [DOWN]) == fields
  {
    if fields == [] {
      assert Keep([DOWN]) == Keep([DOWN][1..]);
    } else {
      KeepSnoc(fields[1..]);
      assert (fields + [DOWN])[1..] == fields[1..] + [DOWN];
      HeadTail(fields);
    }
  }

  ghost function Canonical(d: Directive): Directive {
    d.(gap := " ", params := Join(Fields(d.params), " "), trail := "")
  }

  /** Down and up again prints the line with its words single-spaced. */
  lemma UpLineRoundTrip(line: string, d: Directive)
    requires ParseDirective(line) == Some(d) && !HasDown(d.params)
    ensures EditLine(EditLine(line, true), false) == Print(Canonical(d))
  {
    DirectiveParsed(line);
    MarkLine(line, d);
    KeepSnoc(Fields(d.params));
    ClearedPrint(Marked(d));
    assert Cleared(Marked(d)) == Canonical(d);
  }

  lemma CanonicalPrint(d: Directive)
    requires IsDirective(d)
    ensures Print(d) == Print(Canonical(d)) <==> d == Canonical(d)
    ensures Fields(d.params) != [] ==> IsDirective(Canonical(d)) && Fields(Canonical(d).params) == Fields(d.params)
  {
    FieldsAreFields(d.params);
    FieldsJoin(Fields(d.params));
    if Fields(d.params) != [] {
      JoinEnds(Fields(d.params));
      CanonicalNoSemi(d.params);
      SamePrint(d, Canonical(d));
    } else {
      DirectivePrinted(d);
      NothingSaid(d);
    }
  }

  lemma SamePrint(d: Directive, e: Directive)
    requires IsDirective(d) && IsDirective(e)
    ensures Print(d) == Print(e) <==> d == e
  {
    DirectivePrinted(d);
    DirectivePrinted(e);
  }

  lemma NothingSaid(d: Directive)
    requires IsDirective(d) && Fields(d.params) == []
    ensures ParseDirective(Print(Canonical(d))) == None && d != Canonical(d)
  {
    EmptyServer(d.indent, d.tail, Print(Canonical(d)));
  }

  lemma CanonicalNoSemi(params: string)
    requires ';' !in params
    ensures ';' !in Join(Fields(params), " ")
  {
    FieldsChars(params, NotSemi);
    JoinChars(Fields(params), " ", NotSemi);
  }

  lemma LineRoundTrip(line: string)
    ensures EditLine(EditLine(line, true), false) == line <==> !IsServer(line) || UpAndCanonical(line)
  {
    match ParseDirective(line)
    case None =>
    case Some(d) =>
      DirectiveParsed(line);
      if HasDown(d.params) {
        ClearLine(line, d);
      } else {
        UpLineRoundTrip(line, d);
        CanonicalPrint(d);
      }
  }

  lemma LinesRoundTrip(lines: seq<string>)
    ensures EditLines(EditLines(lines, true), false) == lines <==>
      forall i :: 0 <= i < |lines| && IsServer(lines[i]) ==> UpAndCanonical(lines[i])
  {
    var back := EditLines(EditLines(lines, true), false);
    forall i | 0 <= i < |lines| ensures back[i] == lines[i] <==> !IsServer(lines[i]) || UpAndCanonical(lines[i]) {
      EditedAt(lines, true, i);
      EditedAt(EditLines(lines, true), false, i);
      LineRoundTrip(lines[i]);
    }
  }

  /** Taking a pool down and putting it back always works, and restores the text
      byte for byte exactly when every server of the pool was up and its line
      canonically spaced. */
  lemma DownAndUpRestores(conf: string, pool: string)
    requires Toggle(conf, pool, true).Toggled?
    ensures var down := Toggle(conf, pool, true).config;
      && Toggle(down, pool, false).Toggled?
      && (Toggle(down, pool, false).config == conf <==>
          forall i :: 0 <= i < |PoolLines(conf, pool)| && IsServer(PoolLines(conf, pool)[i]) ==>
            UpAndCanonical(PoolLines(conf, pool)[i]))
  {
    var lines := PoolLines(conf, pool);
    var conf1 := Toggle(conf, pool, true).config;
    LinesAfter(conf, pool, true);
    AfterEdit(lines, true);
    CountPositive(lines);
    ToggleFound(conf1, pool, false);
    LinesAfter(conf1, pool, false);
    LinesRoundTrip(lines);
    var conf2 := Toggle(conf1, pool, false).config;
    if EditLines(EditLines(lines, true), false) == lines { TwoEdits(conf, pool); }
  }

  lemma TwoEdits(conf: string, pool: string)
    requires Toggle(conf, pool, true).Toggled?
    requires var conf1 := Toggle(conf, pool, true).config;
      Toggle(conf1, pool, false).Toggled? && EditLines(PoolLines(conf1, pool), false) == PoolLines(conf, pool)
    ensures Toggle(Toggle(conf, pool, true).config, pool, false).config == conf
  {
    var conf1 := Toggle(conf, pool, true).config;
    var open, close, lines := BlockStays(conf, pool, true);
    var open1, close1, lines1 := BlockStays(conf1, pool, false);
    JoinSplit(conf[open..close], NL);
    ThreePieces(conf, open, close);
  }

  lemma UpLineKeepsWords(line: string, d: Directive)
    requires ParseDirective(line) == Some(d) && !HasDown(d.params) && Fields(d.params) != []
    ensures ParseDirective(EditLine(EditLine(line, true), false)) == Some(Canonical(d))
    ensures Fields(Canonical(d).params) == Fields(d.params)
  {
    DirectiveParsed(line);
    UpLineRoundTrip(line, d);
    CanonicalPrint(d);
    DirectivePrinted(Canonical(d));
  }

  /** The i-th line is a server that is up and says something. */
  ghost predicate SaysSomething(lines: seq<string>, i: nat)
    requires i < |lines|
  {
    match ParseDirective(lines[i])
    case None => false
    case Some(d) => !HasDown(d.params) && Fields(d.params) != []
  }

  /** The same indentation, words and rest of the line, single-spaced. */
  ghost predicate SameWords(was: string, now: string)
    requires IsServer(was)
  {
    var d := ParseDirective(was).value;
    && IsServer(now) && Fields(ParseDirective(now).value.params) == Fields(d.params)
    && ParseDirective(now).value.indent == d.indent && ParseDirective(now).value.tail == d.tail
  }

  lemma KeepsWords(line: string)
    requires IsServer(line) && SaysSomething([line], 0)
    ensures SameWords(line, EditLine(EditLine(line, true), false))
  {
    UpLineKeepsWords(line, ParseDirective(line).value);
  }

  /** Down and up again, over the whole text and whatever its spacing: as many
      lines in the block, those that are no servers untouched, and every up
      server that says anything with its own words in order. */
  lemma DownAndUpKeepsWords(conf: string, pool: string)
    requires Toggle(conf, pool, true).Toggled?
    ensures var was, down := PoolLines(conf, pool), Toggle(conf, pool, true).config;
      && Toggle(down, pool, false).Toggled?
      && var now := PoolLines(Toggle(down, pool, false).config, pool);
      && |now| == |was|
      && (forall i :: 0 <= i < |was| && !IsServer(was[i]) ==> now[i] == was[i])
      && (forall i :: 0 <= i < |was| && SaysSomething(was, i) ==> SameWords(was[i], now[i]))
  {
    var was, conf1 := PoolLines(conf, pool), Toggle(conf, pool, true).config;
    LinesAfter(conf, pool, true);
    AfterEdit(was, true);
    CountPositive(was);
    ToggleFound(conf1, pool, false);
    LinesAfter(conf1, pool, false);
    BackAgain(was, EditLines(EditLines(was, true), false));
  }

  lemma BackAgain(was: seq<string>, now: seq<string>)
    requires now == EditLines(EditLines(was, true), false)
    ensures |now| == |was|
    ensures forall i :: 0 <= i < |was| && !IsServer(was[i]) ==> now[i] == was[i]
    ensures forall i :: 0 <= i < |was| && SaysSomething(was, i) ==> SameWords(was[i], now[i])
  {
    forall i | 0 <= i < |was| ensures now[i] == EditLine(EditLine(was[i], true), false) {
      EditedAt(was, true, i);
      EditedAt(EditLines(was, true), false, i);
    }
    forall i | 0 <= i < |was| && SaysSomething(was, i) ensures SameWords(was[i], now[i]) { KeepsWords(was[i]); }
  }

  // ---- what the position means ----

  /** The position is known exactly when the pool is found and has a server, and
      then it is "down" exactly when every server line of the block carries the
      word `down`: every one, not just one. */
  lemma PositionMeans(conf: string, pool: string)
    ensures var lines := PoolLines(conf, pool);
      && (IsDown(conf, pool).1 <==>
          Named(pool) && Locate(conf, pool) != None && exists i :: 0 <= i < |lines| && IsServer(lines[i]))
      && (IsDown(conf, pool).1 ==> (IsDown(conf, pool).0 <==> AllServersDown(lines)))
      && (!IsDown(conf, pool).1 ==> !IsDown(conf, pool).0)
  {
    NoneDiffers(PoolLines(conf, pool));
    CountPositive(PoolLines(conf, pool));
    if Named(pool) && Locate(conf, pool) != None { ToggleFound(conf, pool, true); }
  }

  // ---- a pool that cannot be brought back ----

  const ONLY_DOWN := "server down;"

  /** An upstream block of one line. */
  function PoolText(pool: string, line: string): string { ("upstream " + (pool + " {")) + (line + "}") }

  lemma OnlyDownPrints() returns (d: Directive)
    ensures IsDirective(d) && Print(d) == ONLY_DOWN && d.params == DOWN
  {
    d := Directive("", " ", DOWN, "", "");
  }

  lemma OneField(word: string)
    requires IsField(word)
    ensures Fields(word) == [word]
  {
    assert Join([word], " ") == word;
    FieldsJoin([word]);
  }

  lemma DownIsField()
    ensures Fields(DOWN) == [DOWN] && Keep(Fields(DOWN)) == []
  {
    OneField(DOWN);
    NothingKept();
  }

  lemma SaysOnlyDown(line: string, d: Directive)
    requires IsDirective(d) && Print(d) == line && HasDown(d.params) && Keep(Fields(d.params)) == []
    ensures OnlyDown(line) && IsServer(line)
  {
    DirectivePrinted(d);
  }

  lemma OnlyDownLine(line: string)
    requires line == ONLY_DOWN
    ensures OnlyDown(line) && IsServer(line)
  {
    var d := OnlyDownPrints();
    DownIsField();
    SaysOnlyDown(line, d);
  }

  lemma AloneInBlock(line: string)
    requires IsServer(line) && NL !in line
    ensures Lines(line) == [line] && CountServers([line]) == 1
  {
    SplitWhole(line, NL);
    OneServer(line);
  }

  lemma NothingKept()
    ensures Keep([DOWN]) == []
  {
    assert Keep([DOWN]) == Keep([DOWN][1..]);
  }

  lemma OneServer(line: string)
    requires IsServer(line)
    ensures CountServers([line]) == 1
  {
    assert CountServers([line][..0]) == 0;
  }

  lemma OpeningIs(pool: string, head: string, conf: string, rest: string)
    requires head == "upstream " + (pool + " {") && conf == head + rest
    ensures IsHeader(conf, pool, Header(0, 9, 9 + |pool|, |head|))
  {
    HeaderAlone(pool, head);
    HeaderLocal(head, conf, pool, Header(0, 9, 9 + |pool|, |head|));
  }

  lemma HeaderAlone(pool: string, head: string)
    requires head == "upstream " + (pool + " {")
    ensures IsHeader(head, pool, Header(0, 9, 9 + |pool|, |head|))
  {
    assert head[0..8] == UPSTREAM;
    assert head[9..9 + |pool|] == pool;
    assert head[9 + |pool|] == ' ' && head[|head| - 1] == '{';
  }

  lemma OnlyDownCloses(line: string, rest: string)
    requires line == ONLY_DOWN && rest == "}"
    ensures CloseAt(line + rest, 1) == Some(|line|)
  {
    NoBraces(line);
    WalkBraces(line, 1);
    WalkCloses(line, rest, 1);
  }

  lemma LocatedAt(conf: string, pool: string, head: string, line: string, rest: string)
    requires conf == head + (line + rest) && FindHeader(conf, pool) == Some(|head|)
    requires CloseAt(line + rest, 1) == Some(|line|)
    ensures Locate(conf, pool) == Some((|head|, |head| + |line|)) && PoolLines(conf, pool) == Lines(line)
  {
    Between(conf, head, line, rest);
    LocateFrom(conf, pool, |head|, |line|);
    LinesLocated(conf, pool, |head|, |head| + |line|);
  }

  lemma Between(s: string, a: string, b: string, c: string)
    requires s == a + (b + c)
    ensures s[|a|..|a| + |b|] == b && s[|a|..] == b + c
  {
  }

  lemma LinesLocated(conf: string, pool: string, open: nat, close: nat)
    requires Locate(conf, pool) == Some((open, close)) && open <= close <= |conf|
    ensures PoolLines(conf, pool) == Lines(conf[open..close])
  {
  }

  lemma HeaderFirst(conf: string, pool: string, h: Header)
    requires Named(pool) && IsHeader(conf, pool, h)
    ensures FindHeader(conf, pool) == Some(h.end)
  {
    HeaderIsMatch(conf, pool, h);
  }

  lemma PoolLocated(pool: string, line: string)
    requires Named(pool) && CloseAt(line + "}", 1) == Some(|line|)
    ensures Locate(PoolText(pool, line), pool) != None && PoolLines(PoolText(pool, line), pool) == Lines(line)
  {
    var conf, head := PoolText(pool, line), "upstream " + (pool + " {");
    OpeningIs(pool, head, conf, line + "}");
    HeaderFirst(conf, pool, Header(0, 9, 9 + |pool|, |head|));
    LocatedAt(conf, pool, head, line, "}");
  }

  lemma OnlyDownPool(pool: string, line: string)
    requires Named(pool) && OnlyDown(line) && NL !in line && CloseAt(line + "}", 1) == Some(|line|)
    ensures var r := Toggle(PoolText(pool, line), pool, false);
      && r.Toggled? && r.changed == 1
      && Toggle(r.config, pool, false) == Failed(NoServers) == Toggle(r.config, pool, true)
  {
    PoolLocated(pool, line);
    AloneInBlock(line);
    Emptied(PoolText(pool, line), pool, line);
  }

  /** For every pool name there is a text whose pool says only `down`: putting it
      in rotation succeeds with one change and leaves a text that can be edited
      neither way again, and of which no state can be read. */
  lemma ClearingEmptiesPool(pool: string, line: string)
    requires Named(pool) && line == ONLY_DOWN
    ensures var r := Toggle(PoolText(pool, line), pool, false);
      && r.Toggled? && r.changed == 1
      && Toggle(r.config, pool, false) == Failed(NoServers) == Toggle(r.config, pool, true)
      && IsDown(r.config, pool) == (false, false)
  {
    OnlyDownLine(line);
    OnlyDownCloses(line, "}");
    OneLineOnly(line);
    OnlyDownPool(pool, line);
  }

  lemma OneLineOnly(line: string)
    requires line == ONLY_DOWN
    ensures NL !in line
  {
  }

  lemma Emptied(conf: string, pool: string, line: string)
    requires Named(pool) && Locate(conf, pool) != None && PoolLines(conf, pool) == [line]
    requires OnlyDown(line) && CountServers([line]) == 1
    ensures var r := Toggle(conf, pool, false);
      && r.Toggled? && r.changed == 1
      && Toggle(r.config, pool, false) == Failed(NoServers) == Toggle(r.config, pool, true)
  {
    ToggleFound(conf, pool, false);
    OneDiffers(line);
    ToggleTwice(conf, pool, false);
    NeverAgain(Toggle(conf, pool, false).config, pool);
  }

  lemma OneDiffers(line: string)
    requires OnlyDown(line)
    ensures CountDiffering([line], false) == 1
  {
    assert CountDiffering([line][..0], false) == 0;
  }

  lemma NeverAgain(conf: string, pool: string)
    requires Toggle(conf, pool, false) == Failed(NoServers)
    ensures Toggle(conf, pool, true) == Failed(NoServers)
  {
  }
}
