/** Reading a managed vhost back: the on-disk manifest behind the status report. */
module Manifest {
  import opened Text
  import opened Payload

  datatype ManagedConf = ManagedConf(app: string, revision: int, domains: seq<string>, upstreams: seq<Upstream>)

  predicate NotReSpace(c: char) { !IsReSpace(c) }

  predicate StartsBlank(s: string) { s != "" && IsReSpace(s[0]) }

  // ---- the recognisers, one per anchored pattern ----

  /** `^#\s*managed-by:\s*deployer-lb-server\s+app=(\S+)`, piece by piece. */
  function ManagedApp(s: string): Option<string> {
    var a :- After(s, "#");
    ManagedBy(SkipRe(a))
  }

  function ManagedBy(s: string): Option<string> {
    var a :- After(s, "managed-by:");
    ManagedServer(SkipRe(a))
  }

  function ManagedServer(s: string): Option<string> {
    var a :- After(s, "deployer-lb-server");
    if StartsBlank(a) then ManagedTail(SkipRe(a)) else None
  }

  /** `app=(\S+)` */
  function ManagedTail(s: string): Option<string> {
    var d :- After(s, "app=");
    var n := Span(d, NotReSpace);
    if n == 0 then None else Some(d[..n])
  }

  /** `\brevision=(\d+)\b` at the head of `s`; a run of digits ends at a word boundary only where it ends. */
  function RevisionHere(s: string, afterWord: bool): Option<string> {
    var rest :- After(s, "revision=");
    var n := Span(rest, IsDigit);
    if afterWord || n == 0 || (n < |rest| && IsWord(rest[n])) then None else Some(rest[..n])
  }

  /** The leftmost match of `\brevision=(\d+)\b`. */
  function RevisionText(s: string, afterWord: bool): Option<string> {
    if s == "" then None
    else
      var here := RevisionHere(s, afterWord);
      if here != None then here else RevisionText(s[1..], IsWord(s[0]))
  }

  /** `strconv.ParseInt` with its range error dropped: the nearest representable value. */
  function ParseInt64(digits: string): int
    requires All(digits, IsDigit)
  {
    if Value(digits) <= MAX_INT64 then Value(digits) else MAX_INT64
  }

  function RevisionOf(line: string): int {
    match RevisionText(line, false)
    case None => 0
    case Some(digits) => if All(digits, IsDigit) then ParseInt64(digits) else 0
  }

  /** `(?i)^\s*server_name\s+([^;]+);`, as the fields of what it captures. */
  function ServerNames(line: string): Option<seq<string>> {
    var s := SkipRe(line);
    if |s| < 12 || Fold(s[..11]) != "server_name" || !IsReSpace(s[11]) then None
    else
      var body := s[12..];
      var end := IndexOf(body, ';');
      if end == 0 || end == |body| then None else Some(Fields(body[..end]))
  }

  predicate IsTokenChar(c: char) { !IsReSpace(c) && c != ';' }

  /** `([^\s;]+):(\d+)` on a whole token: what follows its last colon must be digits. */
  function SplitAddress(token: string): Option<(string, string)> {
    var c := LastIndexOf(token, ':');
    if c == 0 || c + 1 >= |token| || !All(token[c + 1..], IsDigit) then None
    else Some((token[..c], token[c + 1..]))
  }

  /** `([^\s;]+):(\d+)\s*;` */
  function MemberAddress(s: string): Option<(string, string)> {
    var n := Span(s, IsTokenChar);
    var end := SkipRe(s[n..]);
    if end == "" || end[0] != ';' then None else SplitAddress(s[..n])
  }

  /** `^\s*server\s+([^\s;]+):(\d+)\s*;` */
  function PoolMember(line: string): Option<(string, string)> {
    var a :- After(SkipRe(line), "server");
    if StartsBlank(a) then MemberAddress(SkipRe(a)) else None
  }

  // ---- the parser ----

  function LineDomains(line: string): seq<string> {
    match ServerNames(line)
    case Some(names) => names
    case None => []
  }

  /** A line that is a `server_name` is not looked at again; a port out of range is passed over. */
  function LineUpstreams(line: string): seq<Upstream> {
    if ServerNames(line) != None then []
    else match PoolMember(line)
      case None => []
      case Some((host, digits)) =>
        if All(digits, IsDigit) && PortOk(Value(digits)) then [Upstream(host, Value(digits))] else []
  }

  function ParseLines(lines: seq<string>): Option<ManagedConf>
    requires lines != []
  {
    var app :- ManagedApp(TrimSpace(lines[0]));
    Some(ManagedConf(app, RevisionOf(lines[0]), FlatMap(lines[1..], LineDomains), FlatMap(lines[1..], LineUpstreams)))
  }

  function ParseConf(content: string): Option<ManagedConf> { ParseLines(Lines(content)) }

  const NOT_MANAGED := ManagedConf("", 0, [], [])

  /** The parser's loop over the lines after the header. */
  method ParseManagedConf(content: string) returns (mc: ManagedConf, ok: bool)
    ensures ok <==> ParseConf(content) != None
    ensures mc == if ok then ParseConf(content).value else NOT_MANAGED
  {
    var lines := Lines(content);
    var app := ManagedApp(TrimSpace(lines[0]));
    if app == None { return NOT_MANAGED, false; }
    mc := ManagedConf(app.value, RevisionOf(lines[0]), [], []);
    var rest := lines[1..];
    for i := 0 to |rest|
      invariant mc == ManagedConf(app.value, RevisionOf(lines[0]),
                                  FlatMap(rest[..i], LineDomains), FlatMap(rest[..i], LineUpstreams))
    {
      FlatMapSnoc(rest, i, LineDomains);
      FlatMapSnoc(rest, i, LineUpstreams);
      mc := Absorb(mc, rest[i]);
    }
    assert rest[..|rest|] == rest;
    ok := true;
  }

  method Absorb(mc: ManagedConf, line: string) returns (more: ManagedConf)
    ensures more == mc.(domains := mc.domains + LineDomains(line), upstreams := mc.upstreams + LineUpstreams(line))
  {
    var names := ServerNames(line);
    if names != None {
      return mc.(domains := mc.domains + names.value);
    }
    var member := PoolMember(line);
    if member == None { return mc; }
    var (host, digits) := member.value;
    if !All(digits, IsDigit) || !PortOk(Value(digits)) { return mc; }
    return mc.(upstreams := mc.upstreams + [Upstream(host, Value(digits))]);
  }
}
