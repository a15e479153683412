/** The handful of string operations the listener's parsers and printers are
    built from: splitting and joining, blank handling, and decimal numbers.
    Text is ASCII; every character class below is the ASCII part of Go's. */
module Text {

  datatype Option<+T> = None | Some(value: T) {
    predicate IsFailure() { None? }
    function PropagateFailure<U>(): Option<U>
      requires None?
    {
      None
    }
    function Extract(): T
      requires Some?
    {
      value
    }
  }

  const NL: char := '\n'

  // ---- character classes ----

  /** The blanks `strings.TrimSpace` and `strings.Fields` recognise. */
  predicate IsSpace(c: char) {
    c == ' ' || c == '\t' || c == '\n' || c == '\r' || c == '\U{0B}' || c == '\U{0C}'
  }

  /** The regular-expression class `\s`, which leaves out the vertical tab. */
  predicate IsReSpace(c: char) {
    IsSpace(c) && c != '\U{0B}'
  }

  /** The regular-expression class `[ \t]`. */
  predicate IsBlank(c: char) {
    c == ' ' || c == '\t'
  }

  predicate IsDigit(c: char) { '0' <= c <= '9' }
  predicate IsLower(c: char) { 'a' <= c <= 'z' }
  predicate IsUpper(c: char) { 'A' <= c <= 'Z' }
  predicate IsAlpha(c: char) { IsLower(c) || IsUpper(c) }
  predicate IsAlnum(c: char) { IsAlpha(c) || IsDigit(c) }

  /** The regular-expression class `\w`, which decides where `\b` matches. */
  predicate IsWord(c: char) { IsAlnum(c) || c == '_' }

  predicate All(s: string, p: char -> bool) {
    forall i :: 0 <= i < |s| ==> p(s[i])
  }

  // ---- searching ----

  /** The first position from `i` on whose character does not satisfy `p`. */
  function SpanFrom(s: string, p: char -> bool, i: nat): (n: nat)
    requires i <= |s|
    ensures i <= n <= |s|
    decreases |s| - i
  {
    if i == |s| || !p(s[i]) then i else SpanFrom(s, p, i + 1)
  }

  /** How many leading characters of `s` satisfy `p`. */
  function Span(s: string, p: char -> bool): (n: nat)
    ensures n <= |s|
  {
    SpanFrom(s, p, 0)
  }

  lemma {:induction false} SpanFromHolds(s: string, p: char -> bool, i: nat)
    requires i <= |s|
    ensures var n := SpanFrom(s, p, i); (forall k :: i <= k < n ==> p(s[k])) && (n < |s| ==> !p(s[n]))
    decreases |s| - i
  {
    if i < |s| && p(s[i]) { SpanFromHolds(s, p, i + 1); }
  }

  lemma SpanHolds(s: string, p: char -> bool)
    ensures var n := Span(s, p); (forall k :: 0 <= k < n ==> p(s[k])) && (n < |s| ==> !p(s[n]))
  {
    SpanFromHolds(s, p, 0);
  }

  /** Where `c` first occurs in `s` from `i` on, or `|s|` when it does not. */
  function IndexFrom(s: string, c: char, i: nat): (n: nat)
    requires i <= |s|
    ensures i <= n <= |s|
    decreases |s| - i
  {
    if i == |s| || s[i] == c then i else IndexFrom(s, c, i + 1)
  }

  /** `strings.Index` on one character, except that an absent one is at `|s|`. */
  function IndexOf(s: string, c: char): (n: nat)
    ensures n <= |s|
  {
    IndexFrom(s, c, 0)
  }

  lemma {:induction false} IndexFromIs(s: string, c: char, i: nat)
    requires i <= |s|
    ensures var n := IndexFrom(s, c, i); (forall k :: i <= k < n ==> s[k] != c) && (n < |s| ==> s[n] == c)
    decreases |s| - i
  {
    if i < |s| && s[i] != c { IndexFromIs(s, c, i + 1); }
  }

  lemma IndexIs(s: string, c: char)
    ensures var n := IndexOf(s, c); c !in s[..n] && (n < |s| ==> s[n] == c) && (n == |s| <==> c !in s)
  {
    IndexFromIs(s, c, 0);
  }

  predicate HasPrefix(s: string, prefix: string) {
    |prefix| <= |s| && s[..|prefix|] == prefix
  }

  lemma DiffersAt(s: string, prefix: string, k: nat)
    requires k < |prefix| && (k < |s| ==> s[k] != prefix[k])
    ensures !HasPrefix(s, prefix)
  {
    assert k < |s| && |prefix| <= |s| ==> s[..|prefix|][k] == s[k];
  }

  lemma PrefixGrows(s: string, t: string, prefix: string)
    requires s <= t
    ensures HasPrefix(s, prefix) ==> HasPrefix(t, prefix)
  {
  }

  /** What follows `prefix`, if `s` starts with it. */
  function After(s: string, prefix: string): Option<string> {
    if HasPrefix(s, prefix) then Some(s[|prefix|..]) else None
  }

  lemma AfterPrefix(prefix: string, rest: string)
    ensures After(prefix + rest, prefix) == Some(rest)
  {
  }

  /** `s` without its leading `\s` characters. */
  function SkipRe(s: string): string { s[Span(s, IsReSpace)..] }

  lemma SkipReIs(lead: string, s: string)
    requires All(lead, IsReSpace) && (s == "" || !IsReSpace(s[0]))
    ensures SkipRe(lead + s) == s
  {
    SpanIs(lead + s, IsReSpace, |lead|);
  }

  /** A position is the span of a class as soon as it separates the characters in the class from one outside it. */
  lemma SpanIs(s: string, p: char -> bool, n: nat)
    requires n <= |s|
    requires forall i :: 0 <= i < n ==> p(s[i])
    requires n < |s| ==> !p(s[n])
    ensures Span(s, p) == n
  {
    SpanHolds(s, p);
  }

  lemma IndexOfIs(s: string, c: char, n: nat)
    requires n < |s| && s[n] == c
    requires c !in s[..n]
    ensures IndexOf(s, c) == n
  {
    IndexFromIs(s, c, 0);
    assert forall i :: 0 <= i < n ==> s[..n][i] == s[i];
  }

  /** Where `c` last occurs in `s`, or `|s|` when it does not. */
  function LastIndexOf(s: string, c: char): (n: nat)
    ensures n <= |s|
    ensures n < |s| ==> s[n] == c && c !in s[n + 1..]
    ensures n == |s| ==> c !in s
  {
    if s == "" then 0
    else if s[|s| - 1] == c then |s| - 1
    else
      var n := LastIndexOf(s[..|s| - 1], c);
      if n == |s| - 1 then |s| else n
  }

  lemma LastIndexOfIs(s: string, c: char, n: nat)
    requires n < |s| && s[n] == c
    requires c !in s[n + 1..]
    ensures LastIndexOf(s, c) == n
  {
    var k := LastIndexOf(s, c);
    assert forall i :: n < i < |s| ==> s[n + 1..][i - n - 1] == s[i];
    assert forall i :: k < i < |s| ==> s[k + 1..][i - k - 1] == s[i];
  }

  /** The pieces of a text around one character. */
  lemma Around(a: string, c: char, b: string)
    ensures var s := a + [c] + b;
      |s| == |a| + 1 + |b| && s[..|a|] == a && s[|a|] == c && s[|a| + 1..] == b
  {
  }

  // ---- splitting and joining ----

  /** `strings.Split` on a one-character separator. */
  function Split(s: string, sep: char): (parts: seq<string>)
    ensures |parts| >= 1
    decreases |s|
  {
    var i := IndexOf(s, sep);
    if i == |s| then [s] else [s[..i]] + Split(s[i + 1..], sep)
  }

  lemma {:induction false} SplitParts(s: string, sep: char)
    ensures forall i :: 0 <= i < |Split(s, sep)| ==> sep !in Split(s, sep)[i]
    decreases |s|
  {
    var i := IndexOf(s, sep);
    IndexIs(s, sep);
    if i < |s| {
      SplitParts(s[i + 1..], sep);
      HeadOrTail(s[..i], Split(s[i + 1..], sep));
    }
  }

  lemma HeadOrTail<T>(x: T, s: seq<T>)
    ensures forall i :: 0 <= i < |[x] + s| ==> ([x] + s)[i] == if i == 0 then x else s[i - 1]
  {
  }

  /** `strings.Join`. */
  function Join(parts: seq<string>, sep: string): string {
    if parts == [] then ""
    else if |parts| == 1 then parts[0]
    else parts[0] + sep + Join(parts[1..], sep)
  }

  function Lines(s: string): seq<string> { Split(s, NL) }

  function Unlines(lines: seq<string>): string { Join(lines, [NL]) }

  lemma {:induction false} JoinSplit(s: string, sep: char)
    ensures Join(Split(s, sep), [sep]) == s
    decreases |s|
  {
    var i := IndexOf(s, sep);
    IndexIs(s, sep);
    if i < |s| {
      JoinSplit(s[i + 1..], sep);
      var rest := Split(s[i + 1..], sep);
      assert ([s[..i]] + rest)[1..] == rest;
      assert s == s[..i] + [sep] + s[i + 1..];
    }
  }

  lemma SplitAt(s: string, sep: char, i: nat)
    requires i < |s| && s[i] == sep && sep !in s[..i]
    ensures Split(s, sep) == [s[..i]] + Split(s[i + 1..], sep)
  {
    IndexOfIs(s, sep, i);
  }

  lemma SplitFirst(a: string, b: string, sep: char)
    requires sep !in a
    ensures Split(a + [sep] + b, sep) == [a] + Split(b, sep)
  {
    Around(a, sep, b);
    SplitAt(a + [sep] + b, sep, |a|);
  }

  /** Splitting reaches back through a separator. */
  lemma SplitAcross(a: string, b: string, sep: char)
    ensures Split(a + [sep] + b, sep) == Split(a, sep) + Split(b, sep)
    decreases |a|
  {
    var i := IndexOf(a, sep);
    IndexIs(a, sep);
    if i == |a| {
      SplitFirst(a, b, sep);
    } else {
      SplitAcross(a[i + 1..], b, sep);
      SplitAt(a, sep, i);
      SplitAcrossStep(a, a[..i], a[i + 1..], b, sep);
    }
  }

  lemma SplitAcrossStep(a: string, head: string, tail: string, b: string, sep: char)
    requires sep !in head && |a| > |head| && a[..|head|] == head && a[|head|] == sep && a[|head| + 1..] == tail
    requires Split(tail + [sep] + b, sep) == Split(tail, sep) + Split(b, sep)
    ensures Split(a + [sep] + b, sep) == [head] + Split(tail, sep) + Split(b, sep)
  {
    SplitFirst(head, tail + [sep] + b, sep);
    ThreeAround(head, sep, tail, b, a);
    ConsConcat(head, Split(tail, sep), Split(b, sep));
  }

  lemma ThreeAround(head: string, sep: char, tail: string, b: string, a: string)
    requires |a| > |head| && a[..|head|] == head && a[|head|] == sep && a[|head| + 1..] == tail
    ensures a + [sep] + b == head + [sep] + (tail + [sep] + b)
  {
    assert a == head + [sep] + tail;
  }

  /** Two lists of parts laid end to end, the last of one and the first of the other run together. */
  function Weld(p: seq<string>, q: seq<string>): seq<string>
    requires p != [] && q != []
  {
    p[..|p| - 1] + [p[|p| - 1] + q[0]] + q[1..]
  }

  lemma WeldAfter(h: seq<string>, p: seq<string>, q: seq<string>)
    requires p != [] && q != []
    ensures Weld(h + p, q) == h + Weld(p, q)
  {
    assert (h + p)[..|h + p| - 1] == h + p[..|p| - 1];
  }

  /** Without a separator between them, the last part of `a` and the first part of `b` run together. */
  lemma SplitConcat(a: string, b: string, sep: char)
    ensures Split(a + b, sep) == Weld(Split(a, sep), Split(b, sep))
    decreases |a|
  {
    var i := IndexOf(a, sep);
    IndexIs(a, sep);
    if i == |a| {
      SplitJoined(a, b, sep);
    } else {
      var head, tail := a[..i], a[i + 1..];
      assert a == head + [sep] + tail;
      SplitConcat(tail, b, sep);
      SplitConcatStep(head, tail, b, sep);
    }
  }

  lemma SplitConcatStep(head: string, tail: string, b: string, sep: char)
    requires Split(tail + b, sep) == Weld(Split(tail, sep), Split(b, sep))
    ensures Split(head + [sep] + tail + b, sep) == Weld(Split(head + [sep] + tail, sep), Split(b, sep))
  {
    assert head + [sep] + tail + b == head + [sep] + (tail + b);
    SplitAcross(head, tail + b, sep);
    SplitAcross(head, tail, sep);
    WeldAfter(Split(head, sep), Split(tail, sep), Split(b, sep));
  }

  lemma SplitJoined(a: string, b: string, sep: char)
    requires sep !in a
    ensures Split(a + b, sep) == Weld([a], Split(b, sep))
  {
    var j := IndexOf(b, sep);
    IndexIs(b, sep);
    if j == |b| {
      SplitWhole(b, sep);
      SplitWhole(a + b, sep);
    } else {
      SplitJoinedAt(a, b, b[..j], b[j + 1..], sep);
    }
  }

  lemma SplitWhole(s: string, sep: char)
    requires sep !in s
    ensures Split(s, sep) == [s]
  {
    IndexIs(s, sep);
  }

  lemma SplitJoinedAt(a: string, b: string, head: string, tail: string, sep: char)
    requires sep !in a && sep !in head && |b| > |head| && b[..|head|] == head && b[|head|] == sep &&
      b[|head| + 1..] == tail
    ensures Split(a + b, sep) == Weld([a], Split(b, sep))
  {
    assert b == head + [sep] + tail;
    JoinedAround(a, head, sep, tail);
    SplitFirst(a + head, tail, sep);
    SplitFirst(head, tail, sep);
    WeldOne(a, head, Split(tail, sep));
  }

  lemma WeldOne(a: string, b: string, rest: seq<string>)
    ensures Weld([a], [b] + rest) == [a + b] + rest
  {
  }

  lemma JoinedAround(a: string, head: string, sep: char, tail: string)
    ensures a + (head + [sep] + tail) == a + head + [sep] + tail
  {
  }

  lemma {:induction false} SplitJoin(parts: seq<string>, sep: char)
    requires parts != []
    requires forall i :: 0 <= i < |parts| ==> sep !in parts[i]
    ensures Split(Join(parts, [sep]), sep) == parts
  {
    if |parts| == 1 {
      SplitWhole(parts[0], sep);
    } else {
      SplitJoin(parts[1..], sep);
      SplitAcross(parts[0], Join(parts[1..], [sep]), sep);
      SplitWhole(parts[0], sep);
      assert parts == [parts[0]] + parts[1..];
    }
  }

  ghost predicate Every<T>(s: seq<T>, p: T -> bool) {
    forall i :: 0 <= i < |s| ==> p(s[i])
  }

  lemma EveryConcat<T>(a: seq<T>, b: seq<T>, p: T -> bool)
    requires Every(a, p) && Every(b, p)
    ensures Every(a + b, p)
  {
  }

  /** The first element that is not `p`. */
  function FirstNot<T>(s: seq<T>, p: T -> bool): Option<T> {
    if s == [] then None
    else if p(s[0]) then FirstNot(s[1..], p)
    else Some(s[0])
  }

  lemma {:induction false} FirstNotGrow<T>(s: seq<T>, x: T, p: T -> bool)
    ensures FirstNot(s + [x], p) ==
      if FirstNot(s, p) != None then FirstNot(s, p) else if p(x) then None else Some(x)
  {
    if s == [] {
      assert s + [x] == [x];
      assert FirstNot([x], p) == if p(x) then FirstNot([], p) else Some(x);
    } else {
      FirstNotGrow(s[1..], x, p);
      assert (s + [x])[1..] == s[1..] + [x];
    }
  }

  lemma HeadTail<T>(s: seq<T>)
    requires s != []
    ensures s == [s[0]] + s[1..]
  {
  }

  lemma ConsTail<T>(x: T, s: seq<T>)
    ensures ([x] + s)[0] == x && ([x] + s)[1..] == s
  {
  }

  lemma Halves<T>(a: seq<T>, b: seq<T>)
    ensures (a + b)[..|a|] == a && (a + b)[|a|..] == b
  {
  }

  lemma DropDrop<T>(s: seq<T>, i: nat, j: nat)
    requires i + j <= |s|
    ensures s[i..][j..] == s[i + j..]
  {
  }

  lemma TakeGrow<T>(s: seq<T>, i: nat)
    requires i < |s|
    ensures s[..i + 1] == s[..i] + [s[i]]
  {
  }

  function Map<A, B>(s: seq<A>, f: A -> B): (r: seq<B>)
    ensures |r| == |s|
    ensures forall i :: 0 <= i < |s| ==> r[i] == f(s[i])
  {
    seq(|s|, i requires 0 <= i < |s| => f(s[i]))
  }

  lemma MapGrow<A, B>(s: seq<A>, x: A, f: A -> B)
    ensures Map(s + [x], f) == Map(s, f) + [f(x)]
  {
  }

  /** The results of `f` on every element, in order. */
  function FlatMap<A, B>(s: seq<A>, f: A -> seq<B>): seq<B> {
    if s == [] then [] else f(s[0]) + FlatMap(s[1..], f)
  }

  lemma {:induction false} FlatMapConcat<A, B>(a: seq<A>, b: seq<A>, f: A -> seq<B>)
    ensures FlatMap(a + b, f) == FlatMap(a, f) + FlatMap(b, f)
  {
    if a == [] {
      assert a + b == b;
    } else {
      FlatMapConcat(a[1..], b, f);
      TailOfConcat(a, b);
      Associative(f(a[0]), FlatMap(a[1..], f), FlatMap(b, f));
    }
  }

  lemma TailOfConcat<T>(a: seq<T>, b: seq<T>)
    requires a != []
    ensures a + b != [] && (a + b)[0] == a[0] && (a + b)[1..] == a[1..] + b
  {
  }

  lemma Associative<T>(a: seq<T>, b: seq<T>, c: seq<T>)
    ensures a + (b + c) == a + b + c
  {
  }

  lemma FlatMapGrow<A, B>(s: seq<A>, x: A, f: A -> seq<B>)
    ensures FlatMap(s + [x], f) == FlatMap(s, f) + f(x)
  {
    FlatMapConcat(s, [x], f);
    assert FlatMap([x], f) == f(x) + FlatMap([], f);
  }

  lemma FlatMapSnoc<A, B>(s: seq<A>, i: nat, f: A -> seq<B>)
    requires i < |s|
    ensures FlatMap(s[..i + 1], f) == FlatMap(s[..i], f) + f(s[i])
  {
    assert s[..i + 1] == s[..i] + [s[i]];
    FlatMapConcat(s[..i], [s[i]], f);
    assert FlatMap([s[i]], f) == f(s[i]) + FlatMap([], f);
  }

  lemma {:induction false} FlatMapNothing<A, B>(s: seq<A>, f: A -> seq<B>)
    requires forall i :: 0 <= i < |s| ==> f(s[i]) == []
    ensures FlatMap(s, f) == []
  {
    if s != [] { FlatMapNothing(s[1..], f); }
  }

  /** A text is made of separators and of the characters of its parts. */
  lemma {:induction false} SplitChars(s: string, sep: char, p: char -> bool)
    requires p(sep)
    requires forall i :: 0 <= i < |Split(s, sep)| ==> All(Split(s, sep)[i], p)
    ensures All(s, p)
    decreases |s|
  {
    var i := IndexOf(s, sep);
    IndexIs(s, sep);
    if i < |s| {
      var rest := Split(s[i + 1..], sep);
      assert Split(s, sep) == [s[..i]] + rest;
      assert All(s[..i], p) by { assert Split(s, sep)[0] == s[..i]; }
      assert forall k :: 0 <= k < |rest| ==> rest[k] == Split(s, sep)[k + 1];
      SplitChars(s[i + 1..], sep, p);
      assert s == s[..i] + [sep] + s[i + 1..];
    } else {
      assert Split(s, sep)[0] == s;
    }
  }

  lemma {:induction false} JoinChars(parts: seq<string>, sep: string, p: char -> bool)
    requires All(sep, p)
    requires forall i :: 0 <= i < |parts| ==> All(parts[i], p)
    ensures All(Join(parts, sep), p)
  {
    if |parts| > 1 { JoinChars(parts[1..], sep, p); }
  }

  // ---- blanks ----

  function TrimLeft(s: string): string { s[Span(s, IsSpace)..] }

  function TrimRight(s: string): string {
    if s == [] || !IsSpace(s[|s| - 1]) then s else TrimRight(s[..|s| - 1])
  }

  /** `strings.TrimSpace`. */
  function TrimSpace(s: string): string { TrimRight(TrimLeft(s)) }

  /** `strings.Fields`: the maximal runs of characters that are not blanks. */
  function Fields(s: string): (fields: seq<string>)
    decreases |s|
  {
    var skip := Span(s, IsSpace);
    if skip == |s| then []
    else
      var rest := s[skip..];
      var n := Span(rest, NotSpace);
      [rest[..n]] + Fields(rest[n..])
  }

  predicate NotSpace(c: char) { !IsSpace(c) }

  predicate IsField(f: string) {
    f != [] && All(f, NotSpace)
  }

  lemma LeadSpan(lead: string, t: string)
    requires All(lead, IsSpace) && t != "" && !IsSpace(t[0])
    ensures Span(lead + t, IsSpace) == |lead| && (lead + t)[|lead|..] == t
  {
    assert (lead + t)[|lead|] == t[0];
    SpanIs(lead + t, IsSpace, |lead|);
  }

  lemma RunSpan(f: string, rest: string)
    requires IsField(f) && (rest == [] || IsSpace(rest[0]))
    ensures Span(f + rest, NotSpace) == |f| && (f + rest)[..|f|] == f && (f + rest)[|f|..] == rest
  {
    assert forall i :: 0 <= i < |f| ==> (f + rest)[i] == f[i];
    SpanIs(f + rest, NotSpace, |f|);
  }

  /** A field at the head of a text, delimited by a blank or by the end, is the first of its fields. */
  lemma FieldsHead(lead: string, f: string, rest: string)
    requires All(lead, IsSpace) && IsField(f)
    requires rest == [] || IsSpace(rest[0])
    ensures Fields(lead + f + rest) == [f] + Fields(rest)
  {
    assert lead + f + rest == lead + (f + rest) && (f + rest)[0] == f[0];
    LeadSpan(lead, f + rest);
    RunSpan(f, rest);
  }

  lemma FieldsOfBlank(s: string)
    requires All(s, IsSpace)
    ensures Fields(s) == []
  {
    SpanIs(s, IsSpace, |s|);
  }

  lemma {:induction false} FieldsJoin(parts: seq<string>)
    requires forall i :: 0 <= i < |parts| ==> IsField(parts[i])
    ensures Fields(Join(parts, " ")) == parts
  {
    if parts == [] {
    } else if |parts| == 1 {
      FieldsHead("", parts[0], "");
      assert "" + parts[0] + "" == parts[0];
    } else {
      FieldsJoin(parts[1..]);
      FieldsCons(parts[0], Join(parts[1..], " "));
      assert parts == [parts[0]] + parts[1..];
    }
  }

  lemma FieldsCons(f: string, rest: string)
    requires IsField(f)
    ensures Fields(f + " " + rest) == [f] + Fields(rest)
  {
    FieldsHead("", f, " " + rest);
    EmptyLead(f, rest);
    FieldsSkip(" ", rest);
  }

  lemma EmptyLead(f: string, rest: string)
    ensures "" + f + (" " + rest) == f + " " + rest
  {
  }

  /** A blank separates fields. */
  lemma {:induction false} FieldsAcross(a: string, c: char, b: string)
    requires IsSpace(c)
    ensures Fields(a + [c] + b) == Fields(a) + Fields(b)
    decreases |a|
  {
    var skip := Span(a, IsSpace);
    SpanHolds(a, IsSpace);
    if skip == |a| {
      FieldsSkip(a + [c], b);
    } else {
      var rest := a[skip..];
      var n := Span(rest, NotSpace);
      SplitField(a, skip, n);
      FieldsAcross(rest[n..], c, b);
      FieldsHeadAcross(a, a[..skip], rest[..n], rest[n..], c, b);
      ConsConcat(rest[..n], Fields(rest[n..]), Fields(b));
    }
  }

  lemma ConsConcat<T>(x: T, s: seq<T>, t: seq<T>)
    ensures [x] + (s + t) == [x] + s + t
  {
  }

  lemma SplitField(a: string, skip: nat, n: nat)
    requires skip == Span(a, IsSpace) && skip < |a| && n == Span(a[skip..], NotSpace)
    ensures a == a[..skip] + a[skip..][..n] + a[skip..][n..]
    ensures All(a[..skip], IsSpace) && IsField(a[skip..][..n])
    ensures a[skip..][n..] == "" || IsSpace(a[skip..][n..][0])
    ensures Fields(a) == [a[skip..][..n]] + Fields(a[skip..][n..])
  {
    ThreeSlices(a, skip, n);
    SpanHolds(a, IsSpace);
    FieldAtHead(a[skip..], n);
  }

  lemma ThreeSlices(a: string, skip: nat, n: nat)
    requires skip <= |a| && n <= |a[skip..]|
    ensures a == a[..skip] + a[skip..][..n] + a[skip..][n..]
  {
  }

  lemma FieldAtHead(rest: string, n: nat)
    requires rest != "" && !IsSpace(rest[0]) && n == Span(rest, NotSpace)
    ensures IsField(rest[..n]) && (rest[n..] == "" || IsSpace(rest[n..][0]))
  {
    SpanHolds(rest, NotSpace);
  }

  lemma {:induction false} FieldsAreFields(s: string)
    ensures Every(Fields(s), IsField)
    decreases |s|
  {
    var skip := Span(s, IsSpace);
    SpanHolds(s, IsSpace);
    if skip < |s| {
      var rest := s[skip..];
      var n := Span(rest, NotSpace);
      FieldAtHead(rest, n);
      FieldsAreFields(rest[n..]);
      EveryConcat([rest[..n]], Fields(rest[n..]), IsField);
    }
  }

  lemma FieldsHeadAcross(a: string, lead: string, f: string, tail: string, c: char, b: string)
    requires a == lead + f + tail
    requires All(lead, IsSpace) && IsField(f) && IsSpace(c) && (tail == "" || IsSpace(tail[0]))
    ensures Fields(a + [c] + b) == [f] + Fields(tail + [c] + b)
  {
    assert a + [c] + b == lead + f + (tail + [c] + b);
    assert (tail + [c] + b)[0] == if tail == "" then c else tail[0];
    FieldsHead(lead, f, tail + [c] + b);
  }

  /** The characters of the fields are characters of the text. */
  lemma {:induction false} FieldsChars(s: string, p: char -> bool)
    requires All(s, p)
    ensures forall i :: 0 <= i < |Fields(s)| ==> All(Fields(s)[i], p)
    decreases |s|
  {
    var skip := Span(s, IsSpace);
    if skip < |s| {
      var rest := s[skip..];
      var n := Span(rest, NotSpace);
      PartsChars(s, skip, n, p);
      FieldsChars(rest[n..], p);
      SplitField(s, skip, n);
      AllCons(rest[..n], Fields(rest[n..]), p);
    }
  }

  lemma PartsChars(s: string, skip: nat, n: nat, p: char -> bool)
    requires All(s, p) && skip <= |s| && n <= |s[skip..]|
    ensures All(s[skip..][..n], p) && All(s[skip..][n..], p)
  {
  }

  lemma AllCons(x: string, s: seq<string>, p: char -> bool)
    requires All(x, p) && forall i :: 0 <= i < |s| ==> All(s[i], p)
    ensures forall i :: 0 <= i < |[x] + s| ==> All(([x] + s)[i], p)
  {
  }

  lemma SpanSkip(lead: string, s: string)
    requires All(lead, IsSpace)
    ensures Span(lead + s, IsSpace) == |lead| + Span(s, IsSpace)
  {
    var t, k := lead + s, Span(s, IsSpace);
    SpanHolds(s, IsSpace);
    forall i | 0 <= i < |lead| + k ensures IsSpace(t[i]) {
      if i < |lead| { assert IsSpace(lead[i]); } else { assert IsSpace(s[i - |lead|]); }
    }
    SpanIs(t, IsSpace, |lead| + k);
  }

  /** Leading blanks do not change the fields. */
  lemma FieldsSkip(lead: string, s: string)
    requires All(lead, IsSpace)
    ensures Fields(lead + s) == Fields(s)
  {
    SpanSkip(lead, s);
    DropBoth(lead, s, Span(s, IsSpace));
    SameFields(lead + s, s, s[Span(s, IsSpace)..]);
  }

  lemma SameFields(a: string, b: string, rest: string)
    requires a[Span(a, IsSpace)..] == rest == b[Span(b, IsSpace)..]
    ensures Fields(a) == Fields(b)
  {
  }

  lemma DropBoth(lead: string, s: string, k: nat)
    requires k <= |s|
    ensures (lead + s)[|lead| + k..] == s[k..]
  {
  }

  lemma {:induction false} TrimRightPrefix(s: string)
    ensures TrimRight(s) <= s
  {
    if s != [] && IsSpace(s[|s| - 1]) { TrimRightPrefix(s[..|s| - 1]); }
  }

  /** Trimming an indented text leaves a prefix of the text. */
  lemma TrimIndented(margin: string, t: string)
    requires All(margin, IsSpace) && (t == "" || !IsSpace(t[0]))
    ensures TrimSpace(margin + t) <= t
  {
    SpanIs(margin + t, IsSpace, |margin|);
    assert TrimLeft(margin + t) == t;
    TrimRightPrefix(t);
  }

  lemma TrimTight(s: string)
    requires s != "" && !IsSpace(s[0]) && !IsSpace(s[|s| - 1])
    ensures TrimSpace(s) == s
  {
    SpanIs(s, IsSpace, 0);
  }

  // ---- decimal numbers ----

  function DigitChar(d: nat): (c: char)
    requires d < 10
    ensures IsDigit(c)
  {
    "0123456789"[d]
  }

  function DigitValue(c: char): (d: nat)
    requires IsDigit(c)
    ensures d < 10
  {
    c as int - '0' as int
  }

  /** Decimal digits of `n`, no leading zero. */
  function Digits(n: nat): (s: string)
    ensures s != [] && All(s, IsDigit)
  {
    if n < 10 then [DigitChar(n)] else Digits(n / 10) + [DigitChar(n % 10)]
  }

  function Decimal(i: int): string {
    if i < 0 then "-" + Digits(-i) else Digits(i)
  }

  /** The number a run of decimal digits denotes. */
  function Value(s: string): nat
    requires All(s, IsDigit)
  {
    if s == [] then 0 else Value(s[..|s| - 1]) * 10 + DigitValue(s[|s| - 1])
  }

  lemma {:induction false} ValueDigits(n: nat)
    ensures Value(Digits(n)) == n
  {
    if n >= 10 {
      ValueDigits(n / 10);
      var s := Digits(n);
      assert s[..|s| - 1] == Digits(n / 10);
    } else {
      assert Digits(n)[..0] == [];
    }
  }

  // ---- case ----

  function ToLower(c: char): char {
    if IsUpper(c) then (c as int - 'A' as int + 'a' as int) as char else c
  }

  function Fold(s: string): (r: string)
    ensures |r| == |s|
  {
    seq(|s|, i requires 0 <= i < |s| => ToLower(s[i]))
  }

  /** `strings.EqualFold` on ASCII. */
  predicate EqualFold(a: string, b: string) { Fold(a) == Fold(b) }

  lemma FoldFixed(s: string)
    requires forall i :: 0 <= i < |s| ==> !IsUpper(s[i])
    ensures Fold(s) == s
  {
    assert forall i :: 0 <= i < |s| ==> Fold(s)[i] == s[i];
  }

  predicate LowerCase(s: string) { Fold(s) == s }
}
