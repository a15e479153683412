/** Taking the backends of one upstream out of rotation, and putting them back,
    by editing the text an operator wrote. */
module PoolToggle {
  import opened Text

  // ---- the opening line: [ \t]*upstream[ \t]+NAME[ \t]*\{ ----

  /** Where the pieces of an opening line are: the word, the name, what follows the name, and the end. */
  datatype Header = Header(word: nat, name: nat, after: nat, end: nat)

  const UPSTREAM := "upstream"

  predicate Blanks(s: string, from: nat, until: nat)
    requires from <= until <= |s|
  {
    forall i :: from <= i < until ==> IsBlank(s[i])
  }

  /** What the pattern means. */
  ghost predicate IsHeader(s: string, pool: string, h: Header) {
    && h.word + 8 < h.name && h.name + |pool| == h.after < h.end <= |s|
    && Blanks(s, 0, h.word) && s[h.word..h.word + 8] == UPSTREAM
    && Blanks(s, h.word + 8, h.name)
    && s[h.name..h.after] == pool
    && Blanks(s, h.after, h.end - 1) && s[h.end - 1] == '{'
  }

  /** The first position from `i` on that does not hold a blank. */
  function SkipBlanks(s: string, i: nat): (j: nat)
    requires i <= |s|
    ensures i <= j <= |s| && Blanks(s, i, j)
    ensures j < |s| ==> !IsBlank(s[j])
    decreases |s| - i
  {
    if i < |s| && IsBlank(s[i]) then SkipBlanks(s, i + 1) else i
  }

  lemma SkipBlanksIs(s: string, i: nat, j: nat)
    requires i <= j <= |s| && Blanks(s, i, j)
    requires j < |s| ==> !IsBlank(s[j])
    ensures SkipBlanks(s, i) == j
  {
    var k := SkipBlanks(s, i);
  }

  predicate At(s: string, i: nat, t: string) { i + |t| <= |s| && s[i..i + |t|] == t }

  /** The match at the head of `s`. A pool name may itself begin with blanks, which then belong to the name. */
  function MatchHeader(s: string, pool: string): (h: Option<Header>)
    ensures h != None ==> IsHeader(s, pool, h.value)
  {
    var word := SkipBlanks(s, 0);
    if !At(s, word, UPSTREAM) then None
    else
      var gap := SkipBlanks(s, word + 8);
      var own := SkipBlanks(pool, 0);
      if gap - word - 8 <= own || !At(s, gap - own, pool) then None
      else
        var after := gap - own + |pool|;
        var brace := SkipBlanks(s, after);
        if brace == |s| || s[brace] != '{' then None else Some(Header(word, gap - own, after, brace + 1))
  }

  /** A usable pool name: not all blanks. */
  predicate Named(pool: string) { TrimSpace(pool) != "" }

  lemma NamedHasText(pool: string)
    requires Named(pool)
    ensures SkipBlanks(pool, 0) < |pool|
  {
    if SkipBlanks(pool, 0) == |pool| { AllSpaceTrims(pool); }
  }

  lemma AllSpaceTrims(s: string)
    requires All(s, IsSpace)
    ensures TrimSpace(s) == ""
  {
    SpanIs(s, IsSpace, |s|);
  }

  lemma HeaderIsMatch(s: string, pool: string, h: Header)
    requires Named(pool) && IsHeader(s, pool, h)
    ensures MatchHeader(s, pool) == Some(h)
  {
    NamedHasText(pool);
    WordIs(s, pool, h);
    assert forall i :: 0 <= i < |pool| ==> s[h.name + i] == s[h.name..h.after][i];
    GapIs(s, pool, h, SkipBlanks(pool, 0));
    SkipBlanksIs(s, h.after, h.end - 1);
    Assembled(s, pool, h);
  }

  lemma WordIs(s: string, pool: string, h: Header)
    requires IsHeader(s, pool, h)
    ensures SkipBlanks(s, 0) == h.word
  {
    assert s[h.word] == s[h.word..h.word + 8][0] == UPSTREAM[0];
    SkipBlanksIs(s, 0, h.word);
  }

  lemma Assembled(s: string, pool: string, h: Header)
    requires IsHeader(s, pool, h)
    requires SkipBlanks(s, 0) == h.word && SkipBlanks(s, h.word + 8) == h.name + SkipBlanks(pool, 0)
    requires SkipBlanks(s, h.after) == h.end - 1
    ensures MatchHeader(s, pool) == Some(h)
  {
  }

  lemma GapIs(s: string, pool: string, h: Header, own: nat)
    requires own < |pool| && Blanks(pool, 0, own) && !IsBlank(pool[own])
    requires h.word + 8 < h.name && h.name + |pool| == h.after <= |s| && Blanks(s, h.word + 8, h.name)
    requires forall i :: 0 <= i < |pool| ==> s[h.name + i] == pool[i]
    ensures SkipBlanks(s, h.word + 8) == h.name + own
  {
    forall i | h.word + 8 <= i < h.name + own ensures IsBlank(s[i]) {
      if i >= h.name { assert s[h.name + (i - h.name)] == pool[i - h.name]; }
    }
    assert s[h.name + own] == pool[own];
    SkipBlanksIs(s, h.word + 8, h.name + own);
  }

  /** A match depends only on the text up to its brace. */
  lemma HeaderLocal(s: string, t: string, pool: string, h: Header)
    requires IsHeader(s, pool, h) && h.end <= |t| && t[..h.end] == s[..h.end]
    ensures IsHeader(t, pool, h)
  {
    assert forall i :: 0 <= i < h.end ==> t[i] == t[..h.end][i] == s[i];
    assert t[h.word..h.word + 8] == s[h.word..h.word + 8];
    assert t[h.name..h.after] == s[h.name..h.after];
  }

  /** A line break or a brace before the opening brace can only be part of the name. */
  lemma HeaderInside(s: string, pool: string, h: Header, i: nat)
    requires IsHeader(s, pool, h) && i < h.end - 1 && (s[i] == NL || s[i] == '{')
    ensures h.name <= i < h.after
  {
    assert forall k :: 0 <= k < 8 ==> s[h.word + k] == s[h.word..h.word + 8][k] == UPSTREAM[k];
  }

  // ---- the leftmost opening line ----

  function HeaderEnd(s: string, pool: string): Option<nat> {
    match MatchHeader(s, pool)
    case None => None
    case Some(h) => Some(h.end)
  }

  function HeaderOf(pool: string): string -> Option<nat> { s => HeaderEnd(s, pool) }

  /** The end of the first match, trying every line start in turn. */
  function FindLine(s: string, matches: string -> Option<nat>): Option<nat>
    decreases |s|
  {
    if matches(s) != None then matches(s)
    else
      var k := IndexOf(s, NL);
      if k == |s| then None
      else match FindLine(s[k + 1..], matches)
        case None => None
        case Some(e) => Some(k + 1 + e)
  }

  function FindHeader(s: string, pool: string): Option<nat> { FindLine(s, HeaderOf(pool)) }

  /** Every match is at least `least` long and ends with an opening brace. */
  ghost predicate LongMatches(matches: string -> Option<nat>, least: nat) {
    least > 0 && forall s :: matches(s) != None ==> least <= matches(s).value <= |s| && s[matches(s).value - 1] == '{'
  }

  lemma {:induction false} FoundEnds(s: string, matches: string -> Option<nat>, least: nat)
    requires LongMatches(matches, least)
    ensures FindLine(s, matches) != None ==>
      var e := FindLine(s, matches).value; least <= e <= |s| && s[e - 1] == '{'
    decreases |s|
  {
    if matches(s) == None {
      var k := IndexOf(s, NL);
      if k < |s| { FoundEnds(s[k + 1..], matches, least); }
    }
  }

  predicate EndsOpen(a: string) { a != "" && a[|a| - 1] == '{' }

  /** A line break of `a` with room for a whole match after it. */
  predicate BreakBefore(a: string, k: nat, least: nat) { k + least < |a| && a[k] == NL }

  /** Whether `a` followed by `x` or by `y` makes no difference to a match that ends with `a`. */
  ghost predicate SameHit(matches: string -> Option<nat>, x: string, y: string) {
    forall a :: EndsOpen(a) && matches(a + x) == Some(|a|) ==> matches(a + y) == Some(|a|)
  }

  /** Nor does it to the absence of a match when a later one ends with `a`. */
  ghost predicate SameMiss(matches: string -> Option<nat>, least: nat, x: string, y: string) {
    forall a, k :: EndsOpen(a) && BreakBefore(a, k, least) && matches(a + x) == None ==> matches(a + y) == None
  }

  lemma {:induction false} FindLocal(a: string, x: string, y: string, matches: string -> Option<nat>, least: nat)
    requires EndsOpen(a) && LongMatches(matches, least) && SameHit(matches, x, y) && SameMiss(matches, least, x, y)
    requires FindLine(a + x, matches) == Some(|a|)
    ensures FindLine(a + y, matches) == Some(|a|)
    decreases |a|
  {
    if matches(a + x) == None {
      var k := IndexOf(a + x, NL);
      FindLater(a, x, k, matches, least);
      IndexOfPrefix(a, x, y, k);
      MissAt(a, x, y, k, matches, least);
      FindLocal(a[k + 1..], x, y, matches, least);
      FindStep(a, y, k, matches);
    }
  }

  lemma MissAt(a: string, x: string, y: string, k: nat, matches: string -> Option<nat>, least: nat)
    requires SameMiss(matches, least, x, y) && EndsOpen(a) && k + least < |a| && a[k] == NL && matches(a + x) == None
    ensures matches(a + y) == None && EndsOpen(a[k + 1..])
  {
    assert BreakBefore(a, k, least);
  }

  lemma FindStep(a: string, y: string, k: nat, matches: string -> Option<nat>)
    requires matches(a + y) == None && k < |a| && IndexOf(a + y, NL) == k
    requires FindLine(a[k + 1..] + y, matches) == Some(|a[k + 1..]|)
    ensures FindLine(a + y, matches) == Some(|a|)
  {
    TailAfter(a, y, k);
  }

  lemma TailAfter(a: string, y: string, k: nat)
    requires k < |a|
    ensures (a + y)[k + 1..] == a[k + 1..] + y
  {
  }

  lemma IndexOfPrefix(a: string, x: string, y: string, k: nat)
    requires k < |a| && k == IndexOf(a + x, NL)
    ensures IndexOf(a + y, NL) == k
  {
    IndexIs(a + x, NL);
    assert (a + y)[..k] == (a + x)[..k] && (a + x)[k] == a[k] == (a + y)[k];
    IndexOfIs(a + y, NL, k);
  }

  lemma FindLater(a: string, x: string, k: nat, matches: string -> Option<nat>, least: nat)
    requires LongMatches(matches, least)
    requires k == IndexOf(a + x, NL) && matches(a + x) == None && FindLine(a + x, matches) == Some(|a|)
    ensures k + least < |a| && a[k] == NL && FindLine(a[k + 1..] + x, matches) == Some(|a[k + 1..]|)
  {
    LaterIs(a + x, k, |a|, matches, least);
    TailAfter(a, x, k);
    assert (a + x)[k] == a[k];
  }

  lemma LaterIs(s: string, k: nat, e: nat, matches: string -> Option<nat>, least: nat)
    requires LongMatches(matches, least)
    requires k == IndexOf(s, NL) && matches(s) == None && FindLine(s, matches) == Some(e)
    ensures k < |s| && s[k] == NL && k + least < e && FindLine(s[k + 1..], matches) == Some(e - k - 1)
  {
    IndexIs(s, NL);
    FindLineStep(s, k, matches);
    if k < |s| { FoundEnds(s[k + 1..], matches, least); }
  }

  function Shifted(found: Option<nat>, n: nat): Option<nat> {
    match found
    case None => None
    case Some(e) => Some(n + e)
  }

  lemma FindLineStep(s: string, k: nat, matches: string -> Option<nat>)
    requires matches(s) == None && k == IndexOf(s, NL)
    ensures FindLine(s, matches) == if k == |s| then None else Shifted(FindLine(s[k + 1..], matches), k + 1)
  {
  }

  lemma HeaderLong(pool: string)
    ensures LongMatches(HeaderOf(pool), |pool| + 10)
  {
    forall s | HeaderOf(pool)(s) != None
      ensures |pool| + 10 <= HeaderOf(pool)(s).value <= |s| && s[HeaderOf(pool)(s).value - 1] == '{'
    {
      EndIsLong(s, pool);
    }
  }

  lemma EndIsLong(s: string, pool: string)
    ensures HeaderEnd(s, pool) != None ==>
      |pool| + 10 <= HeaderEnd(s, pool).value <= |s| && s[HeaderEnd(s, pool).value - 1] == '{'
  {
  }

  lemma HeaderHit(pool: string, x: string, y: string)
    requires Named(pool)
    ensures SameHit(HeaderOf(pool), x, y)
  {
    var matches := HeaderOf(pool);
    forall a | EndsOpen(a) && matches(a + x) == Some(|a|) ensures matches(a + y) == Some(|a|) {
      MatchLocal(a, x, y, pool);
    }
  }

  lemma HeaderMiss(pool: string, x: string, y: string)
    requires Named(pool)
    ensures SameMiss(HeaderOf(pool), |pool| + 10, x, y)
  {
    var matches, least := HeaderOf(pool), |pool| + 10;
    forall a, k | EndsOpen(a) && BreakBefore(a, k, least) && matches(a + x) == None ensures matches(a + y) == None {
      NoMatchLocal(a, x, y, pool, k);
    }
  }

  lemma MatchLocal(a: string, x: string, y: string, pool: string)
    requires Named(pool) && EndsOpen(a)
    requires HeaderEnd(a + x, pool) == Some(|a|)
    ensures HeaderEnd(a + y, pool) == Some(|a|)
  {
    var h := MatchHeader(a + x, pool).value;
    assert (a + y)[..|a|] == a == (a + x)[..|a|];
    HeaderLocal(a + x, a + y, pool, h);
    HeaderIsMatch(a + y, pool, h);
  }

  /** No text after a later header can complete an earlier one. */
  lemma NoMatchLocal(a: string, x: string, y: string, pool: string, k: nat)
    requires Named(pool) && EndsOpen(a) && BreakBefore(a, k, |pool| + 10)
    requires HeaderEnd(a + x, pool) == None
    ensures HeaderEnd(a + y, pool) == None
  {
    if MatchHeader(a + y, pool) != None {
      var h := MatchHeader(a + y, pool).value;
      if h.end <= |a| {
        assert (a + x)[..h.end] == (a + y)[..h.end];
        HeaderLocal(a + y, a + x, pool, h);
        HeaderIsMatch(a + x, pool, h);
      } else {
        assert (a + y)[k] == NL && (a + y)[|a| - 1] == '{';
        HeaderInside(a + y, pool, h, k);
      }
    }
  }

  /** Replacing what follows the opening brace does not move the header. */
  lemma HeaderStays(a: string, x: string, y: string, pool: string)
    requires Named(pool) && FindHeader(a + x, pool) == Some(|a|)
    ensures EndsOpen(a) && FindHeader(a + y, pool) == Some(|a|)
  {
    HeaderLong(pool);
    HeaderHit(pool, x, y);
    HeaderMiss(pool, x, y);
    LineStays(a, x, y, HeaderOf(pool), |pool| + 10);
  }

  lemma LineStays(a: string, x: string, y: string, matches: string -> Option<nat>, least: nat)
    requires LongMatches(matches, least) && SameHit(matches, x, y) && SameMiss(matches, least, x, y)
    requires FindLine(a + x, matches) == Some(|a|)
    ensures EndsOpen(a) && FindLine(a + y, matches) == Some(|a|)
  {
    FoundOpen(a, x, matches, least);
    FindLocal(a, x, y, matches, least);
  }

  lemma FoundOpen(a: string, x: string, matches: string -> Option<nat>, least: nat)
    requires LongMatches(matches, least) && FindLine(a + x, matches) == Some(|a|)
    ensures EndsOpen(a)
  {
    FoundEnds(a + x, matches, least);
    assert (a + x)[|a| - 1] == a[|a| - 1];
  }

  // ---- the closing brace ----

  /** Where the block that `s` is inside of, at nesting depth `depth`, closes. */
  function CloseAt(s: string, depth: nat): Option<nat>
    requires depth >= 1
  {
    if s == "" then None
    else if s[0] == '}' && depth == 1 then Some(0)
    else match CloseAt(s[1..], if s[0] == '{' then depth + 1 else if s[0] == '}' then depth - 1 else depth)
      case None => None
      case Some(n) => Some(n + 1)
  }

  /** The depth after `s`, if the block is still open then. */
  function Walk(s: string, depth: nat): Option<nat>
    requires depth >= 1
  {
    if s == "" then Some(depth)
    else if s[0] == '}' && depth == 1 then None
    else Walk(s[1..], if s[0] == '{' then depth + 1 else if s[0] == '}' then depth - 1 else depth)
  }

  predicate IsBrace(c: char) { c == '{' || c == '}' }

  function Braces(s: string): string {
    if s == "" then ""
    else if IsBrace(s[0]) then [s[0]] + Braces(s[1..])
    else Braces(s[1..])
  }

  lemma {:induction false} CloseWalks(s: string, depth: nat)
    requires depth >= 1
    ensures CloseAt(s, depth) != None ==>
      var n := CloseAt(s, depth).value; n < |s| && s[n] == '}' && Walk(s[..n], depth) == Some(1)
  {
    if s != "" && !(s[0] == '}' && depth == 1) {
      var next := if s[0] == '{' then depth + 1 else if s[0] == '}' then depth - 1 else depth;
      CloseWalks(s[1..], next);
      if CloseAt(s[1..], next) != None {
        var n := CloseAt(s[1..], next).value;
        assert s[..n + 1][1..] == s[1..][..n];
      }
    }
  }

  lemma {:induction false} WalkCloses(s: string, rest: string, depth: nat)
    requires depth >= 1 && Walk(s, depth) == Some(1) && rest != "" && rest[0] == '}'
    ensures CloseAt(s + rest, depth) == Some(|s|)
  {
    if s == "" {
      assert s + rest == rest;
    } else {
      assert (s + rest)[0] == s[0] && (s + rest)[1..] == s[1..] + rest;
      WalkCloses(s[1..], rest, if s[0] == '{' then depth + 1 else if s[0] == '}' then depth - 1 else depth);
    }
  }

  lemma {:induction false} WalkBraces(s: string, depth: nat)
    requires depth >= 1
    ensures Walk(s, depth) == Walk(Braces(s), depth)
  {
    if s != "" {
      if IsBrace(s[0]) { ConsTail(s[0], Braces(s[1..])); }
      if !(s[0] == '}' && depth == 1) {
        WalkBraces(s[1..], if s[0] == '{' then depth + 1 else if s[0] == '}' then depth - 1 else depth);
      }
    }
  }

  lemma {:induction false} BracesConcat(a: string, b: string)
    ensures Braces(a + b) == Braces(a) + Braces(b)
  {
    if a == "" {
      assert a + b == b;
    } else {
      assert (a + b)[0] == a[0] && (a + b)[1..] == a[1..] + b;
      BracesConcat(a[1..], b);
    }
  }

  lemma {:induction false} NoBraces(s: string)
    requires forall i :: 0 <= i < |s| ==> !IsBrace(s[i])
    ensures Braces(s) == ""
  {
    if s != "" { NoBraces(s[1..]); }
  }

  lemma {:induction false} BracesJoin(parts: seq<string>, sep: string)
    requires forall i :: 0 <= i < |sep| ==> !IsBrace(sep[i])
    ensures Braces(Join(parts, sep)) == FlatMap(parts, Braces)
  {
    if |parts| == 1 {
      assert FlatMap(parts[1..], Braces) == "";
    } else if |parts| > 1 {
      BracesJoin(parts[1..], sep);
      NoBraces(sep);
      BracesConcat(parts[0] + sep, Join(parts[1..], sep));
      BracesConcat(parts[0], sep);
    }
  }

  // ---- a server directive: ^([ \t]*)server[ \t]+([^;]+?)[ \t]*;(.*)$ ----

  /** The pieces of the line, in order: what the pattern captures and the blanks between. */
  datatype Directive = Directive(indent: string, gap: string, params: string, trail: string, tail: string)

  const SERVER := "server"

  /** The line the pieces make up. */
  function Print(d: Directive): string { d.indent + (SERVER + (d.gap + (d.params + (d.trail + (";" + d.tail))))) }

  predicate AllBlanks(s: string) { Blanks(s, 0, |s|) }

  /** The capture starts and ends on text. Between a word and a semicolon with
      only blanks between them it is the last of the blanks. */
  ghost predicate IsDirective(d: Directive) {
    && AllBlanks(d.indent) && AllBlanks(d.gap) && d.gap != "" && AllBlanks(d.trail)
    && d.params != "" && ';' !in d.params
    && ((!IsBlank(d.params[0]) && !IsBlank(d.params[|d.params| - 1])) || (|d.params| == 1 && d.trail == ""))
  }

  /** Trailing blanks dropped. */
  function DropBlanks(s: string): (r: string)
    ensures r <= s && Blanks(s, |r|, |s|)
    ensures r != "" ==> !IsBlank(r[|r| - 1])
  {
    if s != "" && IsBlank(s[|s| - 1]) then DropBlanks(s[..|s| - 1]) else s
  }

  /** The text between the word and the first semicolon, taken apart. */
  function ParseParams(indent: string, between: string, tail: string): Option<Directive> {
    var gap := SkipBlanks(between, 0);
    if gap == 0 then None
    else if gap < |between| then
      var params := DropBlanks(between[gap..]);
      Some(Directive(indent, between[..gap], params, between[gap + |params|..], tail))
    else if gap < 2 then None
    else Some(Directive(indent, between[..gap - 1], between[gap - 1..], "", tail))
  }

  function ParseDirective(line: string): Option<Directive> {
    var indent := SkipBlanks(line, 0);
    var rest :- After(line[indent..], SERVER);
    var semi := IndexOf(rest, ';');
    if semi == |rest| then None else ParseParams(line[..indent], rest[..semi], rest[semi + 1..])
  }

  lemma ParamsParsed(indent: string, between: string, tail: string)
    requires AllBlanks(indent) && ';' !in between && ParseParams(indent, between, tail) != None
    ensures var d := ParseParams(indent, between, tail).value;
      IsDirective(d) && d.indent == indent && d.tail == tail && d.gap + (d.params + d.trail) == between
  {
    var gap := SkipBlanks(between, 0);
    if gap < |between| {
      TextParsed(between, gap, between[gap..], DropBlanks(between[gap..]));
    } else {
      BlanksParsed(between, gap);
    }
  }

  lemma TextParsed(between: string, gap: nat, rest: string, params: string)
    requires 0 < gap < |between| && Blanks(between, 0, gap) && !IsBlank(between[gap]) && ';' !in between
    requires rest == between[gap..] && params == DropBlanks(rest)
    ensures between[..gap] + (params + between[gap + |params|..]) == between && AllBlanks(between[..gap])
    ensures params != "" && ';' !in params && params[0] == between[gap] && !IsBlank(params[|params| - 1])
    ensures AllBlanks(between[gap + |params|..])
  {
    assert rest[0] == between[gap];
    Dropped(rest, params);
    PartsOf(between, gap, rest, params);
    PrefixWithout(between, gap, rest, params);
  }

  lemma PartsOf(between: string, gap: nat, rest: string, params: string)
    requires gap <= |between| && rest == between[gap..] && |params| <= |rest| && params == rest[..|params|]
    ensures gap + |params| <= |between| && between[gap + |params|..] == rest[|params|..]
    ensures between[..gap] + (params + between[gap + |params|..]) == between
  {
    DropDrop(between, gap, |params|);
    ThreeParts(between, gap, |params|);
  }

  lemma PrefixWithout(between: string, gap: nat, rest: string, params: string)
    requires ';' !in between && gap <= |between| && rest == between[gap..] && params <= rest
    ensures ';' !in params
  {
    assert forall i :: 0 <= i < |params| ==> params[i] == between[gap + i];
  }

  lemma Dropped(rest: string, params: string)
    requires rest != "" && !IsBlank(rest[0]) && params == DropBlanks(rest)
    ensures params != "" && params == rest[..|params|] && params[0] == rest[0] && AllBlanks(rest[|params|..])
  {
  }

  lemma ThreeParts(s: string, i: nat, n: nat)
    requires i + n <= |s|
    ensures s[..i] + (s[i..][..n] + s[i + n..]) == s
  {
  }

  lemma BlanksParsed(between: string, gap: nat)
    requires gap == |between| && Blanks(between, 0, gap) && gap >= 2
    ensures AllBlanks(between[..gap - 1]) && |between[gap - 1..]| == 1 && IsBlank(between[gap - 1..][0])
    ensures between[..gap - 1] + (between[gap - 1..] + "") == between
  {
  }

  lemma DirectiveSteps(line: string) returns (indent: nat, rest: string, semi: nat)
    requires ParseDirective(line) != None
    ensures indent <= |line| && Blanks(line, 0, indent) && line[indent..] == SERVER + rest
    ensures semi < |rest| && rest[semi] == ';' && ';' !in rest[..semi]
    ensures ParseDirective(line) == ParseParams(line[..indent], rest[..semi], rest[semi + 1..])
  {
    indent := SkipBlanks(line, 0);
    rest := After(line[indent..], SERVER).value;
    AfterIs(line[indent..], SERVER);
    semi := IndexOf(rest, ';');
    IndexIs(rest, ';');
  }

  lemma AfterIs(s: string, prefix: string)
    requires After(s, prefix) != None
    ensures s == prefix + After(s, prefix).value
  {
  }

  lemma DirectiveParsed(line: string)
    requires ParseDirective(line) != None
    ensures IsDirective(ParseDirective(line).value) && Print(ParseDirective(line).value) == line
  {
    var indent, rest, semi := DirectiveSteps(line);
    ParamsParsed(line[..indent], rest[..semi], rest[semi + 1..]);
    Reassembled(line, indent, rest, semi, ParseParams(line[..indent], rest[..semi], rest[semi + 1..]).value);
  }

  lemma Reassembled(line: string, indent: nat, rest: string, semi: nat, d: Directive)
    requires indent <= |line| && line[indent..] == SERVER + rest
    requires semi < |rest| && rest[semi] == ';' && d.gap + (d.params + d.trail) == rest[..semi]
    requires d.indent == line[..indent] && d.tail == rest[semi + 1..]
    ensures Print(d) == line
  {
    assert rest == rest[..semi] + (";" + d.tail);
    assert d.gap + (d.params + (d.trail + (";" + d.tail))) == (d.gap + (d.params + d.trail)) + (";" + d.tail);
    assert line == line[..indent] + line[indent..];
  }

  lemma DropBlanksIs(s: string, trail: string)
    requires AllBlanks(trail) && (s == "" || !IsBlank(s[|s| - 1]))
    ensures DropBlanks(s + trail) == s
  {
    var r := DropBlanks(s + trail);
    assert forall i :: 0 <= i < |s| ==> (s + trail)[i] == s[i];
    assert forall i :: 0 <= i < |trail| ==> (s + trail)[|s| + i] == trail[i];
  }

  lemma ParamsPrinted(d: Directive)
    requires IsDirective(d)
    ensures ParseParams(d.indent, d.gap + (d.params + d.trail), d.tail) == Some(d)
  {
    if !IsBlank(d.params[0]) {
      TextParams(d, d.gap + (d.params + d.trail), d.params + d.trail);
    } else {
      BlankParams(d, d.gap + (d.params + d.trail));
    }
  }

  lemma TextParams(d: Directive, between: string, rest: string)
    requires IsDirective(d) && !IsBlank(d.params[0]) && rest == d.params + d.trail && between == d.gap + rest
    ensures ParseParams(d.indent, between, d.tail) == Some(d)
  {
    assert between[|d.gap|] == rest[0] == d.params[0];
    SkipBlanksIs(between, 0, |d.gap|);
    Halves(d.gap, rest);
    Halves(d.params, d.trail);
    DropDrop(between, |d.gap|, |d.params|);
    DropBlanksIs(d.params, d.trail);
  }

  lemma BlankParams(d: Directive, between: string)
    requires IsDirective(d) && IsBlank(d.params[0]) && between == d.gap + (d.params + d.trail)
    ensures ParseParams(d.indent, between, d.tail) == Some(d)
  {
    assert between == d.gap + d.params;
    SkipBlanksIs(between, 0, |between|);
    Halves(d.gap, d.params);
  }

  lemma DirectivePrinted(d: Directive)
    requires IsDirective(d)
    ensures ParseDirective(Print(d)) == Some(d)
  {
    var between := d.gap + (d.params + d.trail);
    Regrouped(d, between);
    SplitsAtWord(d.indent, between + (";" + d.tail), Print(d));
    SplitsAtSemi(between, d.tail, between + (";" + d.tail));
    ParamsPrinted(d);
    Assembles(Print(d), d.indent, between + (";" + d.tail), between, d.tail, d);
  }

  lemma Assembles(line: string, indent: string, rest: string, between: string, tail: string, d: Directive)
    requires SkipBlanks(line, 0) == |indent| && line[..|indent|] == indent &&
      After(line[|indent|..], SERVER) == Some(rest)
    requires IndexOf(rest, ';') == |between| < |rest| && rest[..|between|] == between && rest[|between| + 1..] == tail
    requires ParseParams(indent, between, tail) == Some(d)
    ensures ParseDirective(line) == Some(d)
  {
  }

  lemma Regrouped(d: Directive, between: string)
    requires between == d.gap + (d.params + d.trail)
    ensures d.gap + (d.params + (d.trail + (";" + d.tail))) == between + (";" + d.tail)
  {
  }

  lemma SplitsAtSemi(between: string, tail: string, rest: string)
    requires ';' !in between && rest == between + (";" + tail)
    ensures IndexOf(rest, ';') == |between| < |rest| && rest[..|between|] == between && rest[|between| + 1..] == tail
  {
    Halves(between, ";" + tail);
    assert rest[|between|] == ';';
    IndexOfIs(rest, ';', |between|);
  }

  lemma SplitsAtWord(indent: string, rest: string, line: string)
    requires AllBlanks(indent) && line == indent + (SERVER + rest)
    ensures SkipBlanks(line, 0) == |indent| && line[..|indent|] == indent &&
      After(line[|indent|..], SERVER) == Some(rest)
  {
    assert line[|indent|] == SERVER[0];
    SkipBlanksIs(line, 0, |indent|);
    assert line[|indent|..] == SERVER + rest;
    AfterPrefix(SERVER, rest);
  }

  // ---- editing one line ----

  const DOWN := "down"

  /** By word, not by substring. */
  predicate HasDown(params: string) { DOWN in Fields(params) }

  predicate NotDown(field: string) { field != DOWN }

  function Keep(fields: seq<string>): seq<string> {
    if fields == [] then []
    else if NotDown(fields[0]) then [fields[0]] + Keep(fields[1..])
    else Keep(fields[1..])
  }

  function RemoveDown(params: string): string { Join(Keep(Fields(params)), " ") }

  function NewParams(params: string, down: bool): string {
    if down then params + " " + DOWN else RemoveDown(params)
  }

  /** `indent server params;tail` */
  function Rewritten(d: Directive, down: bool): string {
    d.indent + (SERVER + (" " + (NewParams(d.params, down) + (";" + d.tail))))
  }

  function EditLine(line: string, down: bool): string {
    match ParseDirective(line)
    case None => line
    case Some(d) => if HasDown(d.params) == down then line else Rewritten(d, down)
  }

  // ---- the whole edit ----

  datatype ToggleError = NoName | NotFound | NotClosed | NoServers

  datatype Toggled = Toggled(config: string, changed: nat, total: nat) | Failed(error: ToggleError)

  /** The block of the pool: where its text starts, and where its closing brace is. */
  function Locate(conf: string, pool: string): (r: Option<(nat, nat)>)
    ensures r != None ==>
      && FindHeader(conf, pool) == Some(r.value.0)
      && 0 < r.value.0 <= r.value.1 < |conf| && conf[r.value.1] == '}'
      && Walk(conf[r.value.0..r.value.1], 1) == Some(1)
  {
    HeaderBounds(conf, pool);
    match FindHeader(conf, pool)
    case None => None
    case Some(open) =>
      CloseWalks(conf[open..], 1);
      match CloseAt(conf[open..], 1)
      case None => None
      case Some(n) =>
        assert conf[open..][..n] == conf[open..open + n];
        Some((open, open + n))
  }

  lemma HeaderBounds(conf: string, pool: string)
    ensures FindHeader(conf, pool) != None ==> 0 < FindHeader(conf, pool).value <= |conf|
  {
    HeaderLong(pool);
    FoundEnds(conf, HeaderOf(pool), |pool| + 10);
  }

  predicate IsServer(line: string) { ParseDirective(line) != None }

  predicate Differs(line: string, down: bool) {
    match ParseDirective(line)
    case None => false
    case Some(d) => HasDown(d.params) != down
  }

  function CountServers(lines: seq<string>): nat {
    if lines == [] then 0 else (if IsServer(lines[|lines| - 1]) then 1 else 0) + CountServers(lines[..|lines| - 1])
  }

  function CountDiffering(lines: seq<string>, down: bool): nat {
    if lines == [] then 0
    else (if Differs(lines[|lines| - 1], down) then 1 else 0) + CountDiffering(lines[..|lines| - 1], down)
  }

  function Editor(down: bool): string -> string { line => EditLine(line, down) }

  function EditLines(lines: seq<string>, down: bool): seq<string> { Map(lines, Editor(down)) }

  function ToggleBlock(conf: string, open: nat, close: nat, down: bool): Toggled
    requires open <= close <= |conf|
  {
    var lines := Lines(conf[open..close]);
    if CountServers(lines) == 0 then Failed(NoServers)
    else
      Toggled(conf[..open] + Unlines(EditLines(lines, down)) + conf[close..],
              CountDiffering(lines, down), CountServers(lines))
  }

  /** `SetPoolDown`. */
  function Toggle(conf: string, pool: string, down: bool): Toggled {
    if !Named(pool) then Failed(NoName)
    else if FindHeader(conf, pool) == None then Failed(NotFound)
    else
      var block := Locate(conf, pool);
      if block == None then Failed(NotClosed) else ToggleBlock(conf, block.value.0, block.value.1, down)
  }

  /** `PoolIsDown`: whether every server is down, and whether that is known. */
  function IsDown(conf: string, pool: string): (bool, bool) {
    match Toggle(conf, pool, true)
    case Failed(_) => (false, false)
    case Toggled(_, changed, _) => (changed == 0, true)
  }

  // ---- what the position means ----

  /** The lines between the braces of the pool's block. */
  function PoolLines(conf: string, pool: string): seq<string> {
    match Locate(conf, pool)
    case None => []
    case Some((open, close)) => Lines(conf[open..close])
  }

  lemma ToggleFound(conf: string, pool: string, down: bool)
    requires Named(pool) && Locate(conf, pool) != None
    ensures var lines := PoolLines(conf, pool);
      if CountServers(lines) == 0 then Toggle(conf, pool, down) == Failed(NoServers)
      else (
        && Toggle(conf, pool, down).Toggled?
        && Toggle(conf, pool, down).changed == CountDiffering(lines, down)
        && Toggle(conf, pool, down).total == CountServers(lines))
  {
  }

  /** Every server of the pool is out of rotation, not just one. */
  ghost predicate AllServersDown(lines: seq<string>) {
    forall i :: 0 <= i < |lines| && IsServer(lines[i]) ==> HasDown(ParseDirective(lines[i]).value.params)
  }

  lemma {:induction false} NoneDiffers(lines: seq<string>)
    ensures CountDiffering(lines, true) == 0 <==> AllServersDown(lines)
  {
    if lines != [] {
      var pre := lines[..|lines| - 1];
      NoneDiffers(pre);
      assert forall i :: 0 <= i < |pre| ==> pre[i] == lines[i];
    }
  }

  // ---- the code ----

  /** The search in `s`, resumed at `from`. */
  function FindFrom(s: string, from: nat, matches: string -> Option<nat>): Option<nat>
    requires from <= |s|
  {
    Shifted(FindLine(s[from..], matches), from)
  }

  lemma FindNextLine(s: string, from: nat, k: nat, matches: string -> Option<nat>)
    requires from <= |s| && matches(s[from..]) == None && k == IndexOf(s[from..], NL)
    ensures FindFrom(s, from, matches) == if k == |s| - from then None else FindFrom(s, from + k + 1, matches)
  {
    FindLineStep(s[from..], k, matches);
    if k < |s| - from { DropDrop(s, from, k + 1); }
  }

  lemma FindsHere(s: string, from: nat, matches: string -> Option<nat>)
    requires from <= |s|
    ensures matches(s[from..]) != None ==> FindFrom(s, from, matches) == Some(from + matches(s[from..]).value)
    ensures FindFrom(s, 0, matches) == FindLine(s, matches)
  {
    assert s[0..] == s;
  }

  method FirstLine(s: string, matches: string -> Option<nat>) returns (found: Option<nat>)
    ensures found == FindLine(s, matches)
  {
    var from := 0;
    FindsHere(s, 0, matches);
    while true
      invariant from <= |s| && FindLine(s, matches) == FindFrom(s, from, matches)
      decreases |s| - from
    {
      FindsHere(s, from, matches);
      var here := matches(s[from..]);
      if here != None { return Some(from + here.value); }
      var k := IndexOf(s[from..], NL);
      FindNextLine(s, from, k, matches);
      if k == |s| - from { return None; }
      from := from + k + 1;
    }
  }

  /** Walk the braces from the opening one. */
  method FindClose(conf: string, open: nat) returns (close: Option<nat>)
    requires open <= |conf|
    ensures close == match CloseAt(conf[open..], 1) case None => None case Some(n) => Some(open + n)
  {
    var depth: nat := 1;
    var i := open;
    while i < |conf|
      invariant open <= i <= |conf| && depth >= 1
      invariant CloseAt(conf[open..], 1) ==
        (match CloseAt(conf[i..], depth) case None => None case Some(n) => Some(i - open + n))
    {
      assert conf[i..][1..] == conf[i + 1..];
      if conf[i] == '{' {
        depth := depth + 1;
      } else if conf[i] == '}' {
        if depth == 1 { return Some(i); }
        depth := depth - 1;
      }
      i := i + 1;
    }
    return None;
  }

  method EditOne(line: string, down: bool) returns (edited: string, server: bool, changed: bool)
    ensures edited == EditLine(line, down) && server == IsServer(line) && changed == Differs(line, down)
  {
    var d := ParseDirective(line);
    if d == None { return line, false, false; }
    if HasDown(d.value.params) == down { return line, true, false; }
    return Rewritten(d.value, down), true, true;
  }

  method EditBlock(block: string, down: bool) returns (lines: seq<string>, changed: nat, total: nat)
    ensures lines == EditLines(Lines(block), down)
    ensures changed == CountDiffering(Lines(block), down) && total == CountServers(Lines(block))
  {
    ghost var was := Lines(block);
    lines, changed, total := Lines(block), 0, 0;
    for i := 0 to |lines|
      invariant lines == EditLines(was[..i], down) + was[i..]
      invariant changed == CountDiffering(was[..i], down) && total == CountServers(was[..i])
    {
      EditedPart(was, i, down);
      CountsGrow(was, i, down);
      var line, server, differs := EditOne(lines[i], down);
      lines := lines[i := line];
      if server { total := total + 1; }
      if differs { changed := changed + 1; }
    }
    assert was[..|was|] == was && EditLines(was, down) + [] == EditLines(was, down);
  }

  lemma EditedPart(was: seq<string>, i: nat, down: bool)
    requires i < |was|
    ensures var lines := EditLines(was[..i], down) + was[i..];
      lines[i] == was[i] && lines[i := EditLine(was[i], down)] == EditLines(was[..i + 1], down) + was[i + 1..]
  {
    TakeGrow(was, i);
    MapGrow(was[..i], was[i], Editor(down));
    Replace(EditLines(was[..i], down), was[i..], EditLine(was[i], down));
  }

  lemma Replace<T>(a: seq<T>, b: seq<T>, x: T)
    requires b != []
    ensures (a + b)[|a|] == b[0] && (a + b)[|a| := x] == a + [x] + b[1..]
  {
  }

  lemma CountsGrow(lines: seq<string>, i: nat, down: bool)
    requires i < |lines|
    ensures CountServers(lines[..i + 1]) == CountServers(lines[..i]) + if IsServer(lines[i]) then 1 else 0
    ensures CountDiffering(lines[..i + 1], down) ==
      CountDiffering(lines[..i], down) + if Differs(lines[i], down) then 1 else 0
  {
    assert lines[..i + 1][..i] == lines[..i];
  }

  method FindBlock(conf: string, pool: string) returns (found: bool, block: Option<(nat, nat)>)
    ensures found == (FindHeader(conf, pool) != None) && block == Locate(conf, pool)
  {
    var open := FirstLine(conf, HeaderOf(pool));
    if open == None { return false, None; }
    HeaderBounds(conf, pool);
    var close := FindClose(conf, open.value);
    CloseWalks(conf[open.value..], 1);
    if close == None { return true, None; }
    return true, Some((open.value, close.value));
  }

  method SetPoolDown(conf: string, pool: string, down: bool) returns (r: Toggled)
    ensures r == Toggle(conf, pool, down)
  {
    if TrimSpace(pool) == "" { return Failed(NoName); }
    var found, block := FindBlock(conf, pool);
    if !found { return Failed(NotFound); }
    if block == None { return Failed(NotClosed); }
    var (open, close) := block.value;
    var lines, changed, total := EditBlock(conf[open..close], down);
    if total == 0 { return Failed(NoServers); }
    return Toggled(conf[..open] + Unlines(lines) + conf[close..], changed, total);
  }

  method PoolIsDown(conf: string, pool: string) returns (isDown: bool, known: bool)
    ensures (isDown, known) == IsDown(conf, pool)
    ensures known ==> (isDown <==> AllServersDown(PoolLines(conf, pool)))
  {
    var r := SetPoolDown(conf, pool, true);
    if r.Failed? { return false, false; }
    ToggleFound(conf, pool, true);
    NoneDiffers(PoolLines(conf, pool));
    return r.changed == 0, true;
  }
}
