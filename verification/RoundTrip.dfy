/** The status report is rebuilt from disk, so printing a vhost and parsing it
    back must lose nothing. */
module RoundTrip {
  import opened Text
  import opened Payload
  import opened Vhost
  import opened Manifest
  import opened Dump

  /** A text that no pattern of the parsers can match, wherever it is indented. */
  predicate Quiet(t: string) {
    NL !in t &&
      (t == "" || (!IsSpace(t[0]) && t[0] != 's' && t[0] != 'S' && (t[0] == '#' ==> !HasPrefix(t, MARKER_START))))
  }

  /** A line of one file: no break inside it, and not the start of another file of a dump. */
  ghost predicate Plain(line: string) { NL !in line && MarkerOf(line) == None }

  /** A line that declares nothing. */
  ghost predicate Silent(line: string) {
    Plain(line) && LineDomains(line) == [] && LineUpstreams(line) == []
  }

  ghost predicate AllQuiet(texts: seq<string>) { Every(texts, Quiet) }
  ghost predicate AllSilent(lines: seq<string>) { Every(lines, Silent) }
  ghost predicate AllPlain(lines: seq<string>) { Every(lines, Plain) }

  lemma NotMarker(margin: string, t: string)
    requires All(margin, IsSpace) && (t == "" || (!IsSpace(t[0]) && (t[0] == '#' ==> !HasPrefix(t, MARKER_START))))
    ensures MarkerOf(margin + t) == None
  {
    TrimIndented(margin, t);
    PrefixGrows(TrimSpace(margin + t), t, MARKER_START);
    assert MARKER_START[0] == '#';
    if t == "" || t[0] != '#' { DiffersAt(t, MARKER_START, 0); }
  }

  lemma QuietIsSilent(margin: string, t: string)
    requires All(margin, IsReSpace) && NL !in margin && Quiet(t)
    ensures Silent(margin + t)
  {
    NotMarker(margin, t);
    SkipReIs(margin, t);
    NotServerName(margin + t);
    assert After(t, "server") == None by { assert t != "" ==> t[0] != "server"[0]; }
  }

  lemma NotServerName(line: string)
    requires SkipRe(line) == "" || ToLower(SkipRe(line)[0]) != 's'
    ensures ServerNames(line) == None
  {
    var s := SkipRe(line);
    if |s| >= 12 {
      assert Fold(s[..11])[0] == ToLower(s[0]);
      assert "server_name"[0] == 's';
    }
  }

  lemma QuietAlone(t: string)
    requires Quiet(t)
    ensures Silent(t)
  {
    QuietIsSilent("", t);
    assert "" + t == t;
  }

  lemma IndentedSilent(margin: string, texts: seq<string>)
    requires All(margin, IsReSpace) && NL !in margin && AllQuiet(texts)
    ensures AllSilent(Indent(margin, texts))
  {
    forall i | 0 <= i < |texts| ensures Silent(Indent(margin, texts)[i]) {
      QuietIsSilent(margin, texts[i]);
      QuietAlone("");
    }
  }

  lemma AllAlone(texts: seq<string>)
    requires AllQuiet(texts)
    ensures AllSilent(texts)
  {
    forall i | 0 <= i < |texts| ensures Silent(texts[i]) { QuietAlone(texts[i]); }
  }

  // ---- the names and numbers in the file contain no line break ----

  lemma {:induction false} CollapseWord(s: string, inRun: bool)
    ensures All(Collapse(s, inRun), IsWord)
  {
    if s != "" { CollapseWord(s[1..], false); CollapseWord(s[1..], true); }
  }

  lemma {:induction false} TrimWord(s: string)
    requires All(s, IsWord)
    ensures All(TrimUnderscores(s), IsWord)
    decreases |s|
  {
    if s != [] && s[0] == '_' { TrimWord(s[1..]); }
    else if s != [] && s[|s| - 1] == '_' { TrimWord(s[..|s| - 1]); }
  }

  lemma UpstreamNameWord(ref: string)
    ensures All(UpstreamName(ref), IsWord) && NL !in UpstreamName(ref)
  {
    CollapseWord(ref, false);
    TrimWord(Collapse(ref, false));
  }

  lemma DecimalOneLine(i: int)
    ensures NL !in Decimal(i)
  {
  }

  // ---- blocks that declare nothing ----

  /** A line that begins with another letter than an `s`. */
  lemma LetterQuiet(first: char, line: string)
    requires line != "" && line[0] == first && first != 's' && IsLower(first) && NL !in line
    ensures Quiet(line)
  {
  }

  lemma FiveQuiet(a: string, b: string, c: string, d: string, e: string, line: string)
    requires line == a + b + c + d + e && a != "" && IsLower(a[0]) && a[0] != 's'
    requires NL !in a && NL !in b && NL !in c && NL !in d && NL !in e
    ensures Quiet(line)
  {
    assert line[0] == a[0];
    LetterQuiet(a[0], line);
  }

  lemma CacheZoneText(name: string, line: string)
    requires NL !in name
    requires line == "proxy_cache_path /var/cache/nginx/" + name + " levels=1:2 keys_zone=" + name
      + "_cache:10m max_size=1g " + "inactive=60m use_temp_path=off;"
    ensures Quiet(line)
  {
    var last := "_cache:10m max_size=1g " + "inactive=60m use_temp_path=off;";
    FiveQuiet("proxy_cache_path /var/cache/nginx/", name, " levels=1:2 keys_zone=", name, last, line);
  }

  lemma CacheZoneSilent(p: Payload)
    ensures AllSilent(CacheZone(p))
  {
    UpstreamNameWord(p.pipelineRef);
    CacheZoneText(UpstreamName(p.pipelineRef), CacheZoneDirective(p));
    AllAlone(CacheZone(p));
  }

  lemma NotesQuiet(texts: seq<string>)
    requires Comments(texts)
    ensures AllQuiet(texts)
  {
  }

  lemma RateZoneText(name: string, rate: string, line: string)
    requires NL !in name && NL !in rate
    requires line == "limit_req_zone " + "$binary_remote_addr zone=" + name + "_rl:10m rate=" + rate + "r/s;"
    ensures Quiet(line)
  {
    FiveQuiet("limit_req_zone " + "$binary_remote_addr zone=", name, "_rl:10m rate=", rate, "r/s;", line);
  }

  lemma RateZoneQuiet(p: Payload)
    ensures Quiet(RateZoneDirective(p))
  {
    UpstreamNameWord(p.pipelineRef);
    DecimalOneLine(Resolved(p.rateLimit).rate);
    RateZoneText(UpstreamName(p.pipelineRef), Decimal(Resolved(p.rateLimit).rate), RateZoneDirective(p));
  }

  lemma RateZoneSilent(p: Payload, notes: Notes)
    requires NotesOk(notes)
    ensures AllSilent(RateZone(p, notes))
  {
    if p.rateLimit.enabled {
      NotesQuiet(notes.rateZone);
      RateZoneQuiet(p);
      OneMoreQuiet(notes.rateZone, RateZoneDirective(p));
    }
    AllAlone(RateZone(p, notes));
  }

  lemma OneMoreQuiet(texts: seq<string>, line: string)
    requires AllQuiet(texts) && Quiet(line)
    ensures AllQuiet(texts + [line])
  {
  }

  lemma SettingsQuiet(notes: Notes)
    requires NotesOk(notes)
    ensures AllQuiet(ServerSettings(notes))
  {
    NotesQuiet(notes.bodySize);
    IncludesQuiet();
    assert Quiet("underscores_in_headers on;") && Quiet("client_max_body_size 100m;");
  }

  lemma IncludesQuiet()
    ensures AllQuiet(Includes())
  {
    var l := Includes();
    assert Quiet(l[0]);
    assert Quiet(l[1]);
  }

  lemma ProxyHeadersQuiet()
    ensures AllQuiet(ProxyHeaders())
  {
    var l := ProxyHeaders();
    FirstHeadersQuiet(l);
    LastHeadersQuiet(l);
    forall i | 0 <= i < |l| ensures Quiet(l[i]) {
      assert i == 0 || i == 1 || i == 2 || i == 3 || i == 4 || i == 5 || i == 6;
    }
  }

  lemma FirstHeadersQuiet(l: seq<string>)
    requires l == ProxyHeaders()
    ensures Quiet(l[0]) && Quiet(l[1]) && Quiet(l[2]) && Quiet(l[3])
  {
  }

  lemma LastHeadersQuiet(l: seq<string>)
    requires l == ProxyHeaders()
    ensures Quiet(l[4]) && Quiet(l[5]) && Quiet(l[6])
  {
  }

  lemma TimeoutQuiet(head: string, seconds: int, line: string)
    requires Quiet(head) && head != "" && head[0] != '#' && line == head + Decimal(seconds) + "s;"
    ensures Quiet(line)
  {
    DecimalOneLine(seconds);
    assert line[0] == head[0];
  }

  lemma TimeoutsQuiet(t: Timeouts)
    ensures AllQuiet(TimeoutLines(t))
  {
    var lines := TimeoutLines(t);
    TimeoutQuiet("proxy_connect_timeout ", t.connect, lines[1]);
    TimeoutQuiet("proxy_read_timeout ", t.read, lines[2]);
    TimeoutQuiet("proxy_send_timeout ", t.send, lines[3]);
    NextUpstreamQuiet(lines[4], lines[5]);
  }

  lemma NextUpstreamQuiet(a: string, b: string)
    requires a == "proxy_next_upstream error timeout " + "http_502 http_503 http_504;"
    requires b == "proxy_next_upstream_tries 2;"
    ensures Quiet(a) && Quiet(b)
  {
  }

  lemma RateQuiet(p: Payload, notes: Notes)
    requires NotesOk(notes)
    ensures AllQuiet(RateLines(p, notes))
  {
    UpstreamNameWord(p.pipelineRef);
    DecimalOneLine(Resolved(p.rateLimit).burst);
    NotesQuiet(notes.rate);
    assert AllQuiet(RateDirectives(p));
  }

  lemma CacheUseQuiet(p: Payload)
    ensures AllQuiet(CacheUse(p))
  {
    UpstreamNameWord(p.pipelineRef);
  }

  lemma CacheStaleQuiet()
    ensures AllQuiet(CacheStale())
  {
  }

  lemma CacheQuiet(p: Payload)
    ensures AllQuiet(CacheLines(p))
  {
    CacheUseQuiet(p);
    CacheStaleQuiet();
  }

  // ---- routes declare nothing ----

  predicate RouteOneLine(loc: LocationSpec) {
    NL !in loc.matcher && NL !in loc.path && NL !in loc.proxyPass
  }

  lemma ControlFree(s: string)
    requires !HasControl(s)
    ensures NL !in s
  {
    assert IsControl(NL);
  }

  lemma LocationBodyQuiet(loc: LocationSpec, p: Payload, notes: Notes)
    requires NotesOk(notes) && RouteOneLine(loc)
    ensures AllQuiet(LocationBody(loc, p, notes))
  {
    var pass := ["proxy_pass " + Destination(loc, p) + ";"];
    PassQuiet(loc, p);
    ProxyHeadersQuiet();
    WebsocketQuiet(WantsWebsocket(loc, p));
    TimeoutsQuiet(p.timeouts);
    RateQuiet(p, notes);
    CacheQuiet(p);
    QuietConcat(pass, ProxyHeaders());
    QuietConcat(pass + ProxyHeaders(), WebsocketHeaders(WantsWebsocket(loc, p)));
    QuietConcat(pass + ProxyHeaders() + WebsocketHeaders(WantsWebsocket(loc, p)), TimeoutLines(p.timeouts));
    QuietConcat(pass + ProxyHeaders() + WebsocketHeaders(WantsWebsocket(loc, p)) + TimeoutLines(p.timeouts),
                RateLines(p, notes));
    QuietConcat(pass + ProxyHeaders() + WebsocketHeaders(WantsWebsocket(loc, p)) + TimeoutLines(p.timeouts)
                  + RateLines(p, notes),
                CacheLines(p));
  }

  lemma PassQuiet(loc: LocationSpec, p: Payload)
    requires RouteOneLine(loc)
    ensures AllQuiet(["proxy_pass " + Destination(loc, p) + ";"])
  {
    UpstreamNameWord(p.pipelineRef);
  }

  lemma WebsocketQuiet(on: bool)
    ensures AllQuiet(WebsocketHeaders(on))
  {
  }

  lemma QuietConcat(a: seq<string>, b: seq<string>)
    requires AllQuiet(a) && AllQuiet(b)
    ensures AllQuiet(a + b)
  {
    EveryConcat(a, b, Quiet);
  }

  lemma LocationFrameSilent(loc: LocationSpec)
    requires RouteOneLine(loc)
    ensures Silent("") && Silent(MARGIN + LocationOpen(loc)) && Silent("    }")
  {
    QuietAlone("");
    LocationOpenQuiet(loc);
    MarginSilent(LocationOpen(loc));
    CloseSilent(MARGIN, "}", "    }");
  }

  lemma LocationOpenQuiet(loc: LocationSpec)
    requires RouteOneLine(loc)
    ensures Quiet(LocationOpen(loc))
  {
    assert LocationOpen(loc)[0] == "location "[0];
  }

  lemma MarginSilent(t: string)
    requires Quiet(t)
    ensures Silent(MARGIN + t)
  {
    assert All(MARGIN, IsReSpace) && NL !in MARGIN;
    QuietIsSilent(MARGIN, t);
  }

  lemma CloseSilent(margin: string, brace: string, line: string)
    requires margin == MARGIN && brace == "}" && line == "    }"
    ensures Silent(line)
  {
    QuietIsSilent(margin, brace);
    assert margin + brace == line;
  }

  lemma LocationBlockSilent(loc: LocationSpec, p: Payload, notes: Notes)
    requires NotesOk(notes) && RouteOneLine(loc)
    ensures AllSilent(LocationBlock(loc, p, notes))
  {
    LocationBodyQuiet(loc, p, notes);
    var body := Indent(DEEP, LocationBody(loc, p, notes));
    IndentedSilent(DEEP, LocationBody(loc, p, notes));
    LocationFrameSilent(loc);
    Framed("", MARGIN + LocationOpen(loc), body, "    }");
  }

  lemma Framed(first: string, second: string, body: seq<string>, last: string)
    requires Silent(first) && Silent(second) && AllSilent(body) && Silent(last)
    ensures AllSilent([first, second] + body + [last])
  {
    EveryConcat([first, second], body, Silent);
    EveryConcat([first, second] + body, [last], Silent);
  }

  lemma {:induction false} LocationBlocksSilent(locs: seq<LocationSpec>, p: Payload, notes: Notes)
    requires NotesOk(notes)
    requires forall i :: 0 <= i < |locs| ==> RouteOneLine(locs[i])
    ensures AllSilent(LocationBlocks(locs, p, notes))
  {
    if locs != [] {
      LocationBlockSilent(locs[0], p, notes);
      LocationBlocksSilent(locs[1..], p, notes);
    }
  }

  lemma OrderedOneLine(p: Payload, lib: Library)
    requires LocationsOk(p, lib)
    ensures forall i :: 0 <= i < |Locations.Ordered(p)| ==> RouteOneLine(Locations.Ordered(p)[i])
  {
    var locs := Locations.Declared(p);
    forall i | 0 <= i < |Locations.Ordered(p)| ensures RouteOneLine(Locations.Ordered(p)[i]) {
      Locations.SameElements(locs, Locations.Ordered(p)[i]);
      assert Locations.Ordered(p)[i] in locs;
      DeclaredOneLine(p, lib, Locations.Ordered(p)[i]);
    }
  }

  lemma DeclaredOneLine(p: Payload, lib: Library, loc: LocationSpec)
    requires LocationsOk(p, lib) && loc in Locations.Declared(p)
    ensures RouteOneLine(loc)
  {
    if p.locations != [] {
      var k :| 0 <= k < |p.locations| && p.locations[k] == loc;
      assert LocationOk(p.locations[k], lib);
      ControlFree(loc.path);
      ControlFree(loc.proxyPass);
    }
  }

  // ---- the two kinds of line that do declare something ----

  lemma NotAServerName(line: string)
    requires |SkipRe(line)| >= 7 && SkipRe(line)[6] == ' '
    ensures ServerNames(line) == None
  {
    var s := SkipRe(line);
    if |s| >= 12 {
      assert Fold(s[..11])[6] == ToLower(s[6]);
      assert "server_name"[6] == '_';
    }
  }

  lemma MemberToken(token: string)
    requires All(token, IsTokenChar)
    ensures Span(token + ";", IsTokenChar) == |token|
    ensures SkipRe((token + ";")[|token|..]) == ";"
  {
    var b := token + ";";
    assert forall i :: 0 <= i < |token| ==> b[i] == token[i];
    SpanIs(b, IsTokenChar, |token|);
    assert b[|token|..] == ";";
    SpanIs(";", IsReSpace, 0);
  }

  lemma AddressText(ip: string, digits: string)
    requires ip != "" && All(ip, IsIpChar) && digits != "" && All(digits, IsDigit)
    ensures MemberAddress(ip + ":" + digits + ";") == Some((ip, digits))
  {
    var token := ip + ":" + digits;
    MemberToken(token);
    assert (token + ";")[..|token|] == token;
    TokenSplits(ip, digits);
  }

  lemma TokenSplits(ip: string, digits: string)
    requires ip != "" && digits != "" && All(digits, IsDigit)
    ensures SplitAddress(ip + ":" + digits) == Some((ip, digits))
  {
    var token := ip + ":" + digits;
    assert token[|ip| + 1..] == digits && token[..|ip|] == ip && token[|ip|] == ':';
    LastIndexOfIs(token, ':', |ip|);
  }

  lemma MemberText(rest: string)
    requires rest != "" && !IsReSpace(rest[0])
    ensures PoolMember(MARGIN + ("server" + (" " + rest))) == MemberAddress(rest)
  {
    SkipReIs(MARGIN, "server" + (" " + rest));
    AfterPrefix("server", " " + rest);
    SkipReIs(" ", rest);
  }

  lemma ServerLineDeclares(u: Upstream)
    requires u.ip != "" && All(u.ip, IsIpChar) && PortOk(u.port)
    ensures LineDomains(ServerLine(u)) == [] && LineUpstreams(ServerLine(u)) == [u] && Plain(ServerLine(u))
  {
    var digits := Digits(u.port);
    var rest := u.ip + ":" + digits + ";";
    assert rest[0] == u.ip[0];
    ServerLineShape(u);
    SkipReIs(MARGIN, "server" + (" " + rest));
    NotAServerName(ServerLine(u));
    NotMarker(MARGIN, "server" + (" " + rest));
    MemberText(rest);
    AddressText(u.ip, digits);
    ValueDigits(u.port);
  }

  lemma ServerLineShape(u: Upstream)
    requires u.port >= 0 && NL !in u.ip
    ensures ServerLine(u) == MARGIN + ("server" + (" " + (u.ip + ":" + Digits(u.port) + ";")))
    ensures NL !in ServerLine(u)
  {
  }

  predicate IsDomainChar(c: char) { IsLabelChar(c) || c == '.' }

  lemma DomainChars(d: string)
    requires DomainOk(d)
    ensures IsField(d) && All(d, IsDomainChar)
  {
    var labels := Split(d, '.');
    forall i | 0 <= i < |labels| ensures All(labels[i], IsDomainChar) {
      if i < |labels| - 1 { assert LabelOk(labels[i]); }
    }
    SplitChars(d, '.', IsDomainChar);
    assert d == "" ==> |labels| == 1;
  }

  predicate IsDomainsChar(c: char) { IsDomainChar(c) || c == ' ' }

  lemma NamesChars(domains: seq<string>)
    requires domains != [] && forall i :: 0 <= i < |domains| ==> DomainOk(domains[i])
    ensures Fields(Join(domains, " ")) == domains
    ensures Join(domains, " ") != "" && All(Join(domains, " "), IsDomainsChar)
  {
    forall i | 0 <= i < |domains| ensures IsField(domains[i]) && All(domains[i], IsDomainsChar) {
      DomainChars(domains[i]);
    }
    JoinChars(domains, " ", IsDomainsChar);
    FieldsJoin(domains);
    assert Fields("") == [];
  }

  lemma NameDirective(text: string, names: string)
    requires text == "server_name" + (" " + (names + ";")) && names != "" && ';' !in names
    ensures |text| >= 12 && Fold(text[..11]) == "server_name" && text[11] == ' '
    ensures IndexOf(text[12..], ';') == |names| && text[12..][..|names|] == names && |text[12..]| > |names|
  {
    assert text[..11] == "server_name";
    FoldFixed("server_name");
    var body := names + ";";
    assert text[12..] == body && body[..|names|] == names;
    IndexOfIs(body, ';', |names|);
  }

  lemma NameLineSkips(line: string, text: string)
    requires line == MARGIN + text && text != "" && text[0] == 's'
    ensures SkipRe(line) == text
  {
    SkipReIs(MARGIN, text);
  }

  lemma NameLine(names: string, line: string)
    requires names != "" && All(names, IsDomainsChar)
    requires line == MARGIN + ("server_name" + (" " + (names + ";")))
    ensures ServerNames(line) == Some(Fields(names))
  {
    var text := "server_name" + (" " + (names + ";"));
    assert text[0] == "server_name"[0];
    NameLineSkips(line, text);
    NameDirective(text, names);
  }

  lemma NameLinePlain(names: string, line: string)
    requires line == MARGIN + ("server_name" + (" " + (names + ";")))
    ensures MarkerOf(line) == None
  {
    var text := "server_name" + (" " + (names + ";"));
    assert text[0] == "server_name"[0];
    NotMarker(MARGIN, text);
  }

  lemma NameLineShape(domains: seq<string>)
    requires NL !in Join(domains, " ")
    ensures ServerNameLine(domains) == MARGIN + ("server_name" + (" " + (Join(domains, " ") + ";")))
    ensures NL !in ServerNameLine(domains)
  {
  }

  lemma NameLineDeclares(domains: seq<string>, names: string, line: string)
    requires names == Join(domains, " ") && names != "" && All(names, IsDomainsChar) && Fields(names) == domains
    requires line == ServerNameLine(domains)
    ensures ServerNames(line) == Some(domains) && Plain(line)
  {
    NameLineShape(domains);
    NameLine(names, line);
    NameLinePlain(names, line);
  }

  // ---- the header ----

  lemma StartManaged(line: string, rest: string)
    requires line == "#" + (" " + rest) && rest != "" && !IsReSpace(rest[0])
    ensures ManagedApp(line) == ManagedBy(rest)
  {
    AfterPrefix("#", " " + rest);
    SkipReIs(" ", rest);
  }

  lemma StartBy(line: string, rest: string)
    requires line == "managed-by:" + (" " + rest) && rest != "" && !IsReSpace(rest[0])
    ensures ManagedBy(line) == ManagedServer(rest)
  {
    AfterPrefix("managed-by:", " " + rest);
    SkipReIs(" ", rest);
  }

  lemma StartServer(line: string, rest: string)
    requires line == "deployer-lb-server" + (" " + rest) && rest != "" && !IsReSpace(rest[0])
    ensures ManagedServer(line) == ManagedTail(rest)
  {
    AfterPrefix("deployer-lb-server", " " + rest);
    SkipReIs(" ", rest);
  }

  lemma HeaderPieces(rest: string)
    ensures HEADER_START + rest == "#" + (" " + ("managed-by:" + (" " + ("deployer-lb-server" + (" " + rest)))))
  {
  }

  lemma HeaderStart(rest: string)
    requires rest != "" && !IsReSpace(rest[0])
    ensures ManagedApp(HEADER_START + rest) == ManagedTail(rest)
  {
    HeaderPieces(rest);
    var b := "deployer-lb-server" + (" " + rest);
    var a := "managed-by:" + (" " + b);
    assert a[0] == "managed-by:"[0] && b[0] == "deployer-lb-server"[0];
    StartManaged(HEADER_START + rest, a);
    StartBy(a, b);
    StartServer(b, rest);
  }

  lemma AppTail(ref: string, rest: string)
    requires ref != "" && All(ref, IsRefChar)
    ensures ManagedTail("app=" + (ref + (" " + rest))) == Some(ref)
  {
    var d := ref + (" " + rest);
    AfterPrefix("app=", d);
    assert forall i :: 0 <= i < |ref| ==> d[i] == ref[i];
    assert d[|ref|] == ' ';
    SpanIs(d, NotReSpace, |ref|);
    assert d[..|ref|] == ref;
  }

  predicate NotRevisionAt(s: string, i: nat) {
    i + 9 <= |s| ==> s[i + 8] != '=' || s[i + 7] != 'n'
  }

  lemma NoRevisionHere(s: string, i: nat, w: bool)
    requires i < |s| && NotRevisionAt(s, i)
    ensures RevisionHere(s[i..], w) == None
  {
    if HasPrefix(s[i..], "revision=") {
      assert s[i..][..9][8] == "revision="[8] && s[i..][..9][7] == "revision="[7];
    }
  }

  /** The search passes over a prefix in which the pattern does not start. */
  lemma {:induction false} RevisionSkip(s: string, i: nat, j: nat, w: bool)
    requires i <= j < |s|
    requires forall k :: i <= k < j ==> NotRevisionAt(s, k)
    ensures RevisionText(s[i..], w) == RevisionText(s[j..], if i == j then w else IsWord(s[j - 1]))
    decreases j - i
  {
    if i < j {
      NoRevisionHere(s, i, w);
      assert s[i..][1..] == s[i + 1..];
      RevisionSkip(s, i + 1, j, IsWord(s[i]));
    }
  }

  lemma RevisionFound(digits: string)
    requires digits != "" && All(digits, IsDigit)
    ensures RevisionText("revision=" + digits, false) == Some(digits)
  {
    AfterPrefix("revision=", digits);
    SpanIs(digits, IsDigit, |digits|);
    assert digits[..|digits|] == digits;
  }

  /** Every `=` before the revision follows a `p`. */
  lemma HeaderEquals(ref: string, rest: string, line: string, k: nat)
    requires All(ref, IsRefChar)
    requires line == HEADER_START + ("app=" + (ref + (" " + rest)))
    requires 0 < k <= 37 + |ref| && line[k] == '='
    ensures line[k - 1] == 'p'
  {
    assert |HEADER_START| == 33;
    assert '=' !in HEADER_START;
    var tail := "app=" + (ref + (" " + rest));
    assert forall i :: 0 <= i < 33 ==> line[i] == HEADER_START[i];
    assert forall i :: 33 <= i < |line| ==> line[i] == tail[i - 33];
    assert k == 36;
  }

  lemma HeaderRevision(ref: string, digits: string, line: string)
    requires All(ref, IsRefChar) && digits != "" && All(digits, IsDigit)
    requires line == HEADER_START + ("app=" + (ref + (" " + ("revision=" + digits))))
    ensures RevisionText(line, false) == Some(digits)
  {
    var j := 38 + |ref|;
    HeaderSplit(ref, "revision=" + digits, line);
    forall k | 0 <= k < j ensures NotRevisionAt(line, k) { NoneBefore(ref, digits, line, j, k); }
    RevisionSkip(line, 0, j, false);
    assert line[0..] == line;
    RevisionFound(digits);
  }

  lemma NoneBefore(ref: string, digits: string, line: string, j: nat, k: nat)
    requires All(ref, IsRefChar) && k < j == 38 + |ref| <= |line| && line[j..] == "revision=" + digits
    requires line == HEADER_START + ("app=" + (ref + (" " + ("revision=" + digits))))
    ensures NotRevisionAt(line, k)
  {
    if k + 9 <= |line| && line[k + 8] == '=' {
      if k + 8 < j {
        HeaderEquals(ref, "revision=" + digits, line, k + 8);
      } else {
        assert line[k + 8] == line[j..][k + 8 - j] == "revision="[k + 8 - j];
      }
    }
  }

  lemma HeaderSplit(ref: string, rest: string, line: string)
    requires line == HEADER_START + ("app=" + (ref + (" " + rest)))
    ensures |line| == 38 + |ref| + |rest| && line[38 + |ref|..] == rest && line[37 + |ref|] == ' '
  {
    assert |HEADER_START| == 33;
    var tail := "app=" + (ref + (" " + rest));
    assert line[33..] == tail;
    assert tail[4..] == ref + (" " + rest);
  }

  lemma HeaderTight(tail: string, line: string)
    requires line == HEADER_START + tail && tail != "" && !IsSpace(tail[|tail| - 1])
    ensures TrimSpace(line) == line
  {
    assert HEADER_START[0] == '#' && line[0] == HEADER_START[0];
    assert line[|line| - 1] == tail[|tail| - 1];
    TrimTight(line);
  }

  lemma HeaderFacts(ref: string, digits: string, line: string)
    requires ref != "" && All(ref, IsRefChar) && digits != "" && All(digits, IsDigit)
    requires line == HEADER_START + ("app=" + (ref + (" " + ("revision=" + digits))))
    ensures ManagedApp(TrimSpace(line)) == Some(ref)
    ensures NL !in line
  {
    var tail := "app=" + (ref + (" " + ("revision=" + digits)));
    TailEnds(ref, digits, tail);
    HeaderTight(tail, line);
    HeaderManaged(ref, "revision=" + digits, tail, line);
    HeaderOneLine(ref, digits);
  }

  lemma HeaderManaged(ref: string, rest: string, tail: string, line: string)
    requires ref != "" && All(ref, IsRefChar)
    requires tail == "app=" + (ref + (" " + rest)) && line == HEADER_START + tail
    ensures ManagedApp(line) == Some(ref)
  {
    HeaderStart(tail);
    AppTail(ref, rest);
  }

  lemma TailEnds(ref: string, digits: string, tail: string)
    requires tail == "app=" + (ref + (" " + ("revision=" + digits))) && digits != ""
    ensures tail != "" && tail[0] == 'a' && tail[|tail| - 1] == digits[|digits| - 1]
  {
    assert tail[0] == "app="[0];
  }

  lemma HeaderParses(p: Payload)
    requires RefOk(p.pipelineRef) && p.revision > 0
    ensures ManagedApp(TrimSpace(HeaderLine(p))) == Some(p.pipelineRef)
    ensures RevisionOf(HeaderLine(p)) == p.revision
    ensures NL !in HeaderLine(p)
  {
    HeaderFacts(p.pipelineRef, Digits(p.revision), HeaderLine(p));
    HeaderRevision(p.pipelineRef, Digits(p.revision), HeaderLine(p));
    ValueDigits(p.revision);
  }

  lemma HeaderOneLine(ref: string, digits: string)
    requires NL !in ref && NL !in digits
    ensures NL !in HEADER_START + ("app=" + (ref + (" " + ("revision=" + digits))))
  {
    assert NL !in HEADER_START && NL !in "app=" && NL !in " " && NL !in "revision=";
  }

  // ---- the whole file ----

  /** Lines, with the domains and upstreams they declare. */
  ghost predicate Declares(lines: seq<string>, domains: seq<string>, upstreams: seq<Upstream>) {
    AllPlain(lines) && FlatMap(lines, LineDomains) == domains && FlatMap(lines, LineUpstreams) == upstreams
  }

  lemma SilentDeclaresNothing(lines: seq<string>)
    requires AllSilent(lines)
    ensures Declares(lines, [], [])
  {
    FlatMapNothing(lines, LineDomains);
    FlatMapNothing(lines, LineUpstreams);
  }

  lemma DeclaresConcat(a: seq<string>, b: seq<string>, d1: seq<string>, u1: seq<Upstream>, d2: seq<string>,
                       u2: seq<Upstream>)
    requires Declares(a, d1, u1) && Declares(b, d2, u2)
    ensures Declares(a + b, d1 + d2, u1 + u2)
  {
    FlatMapConcat(a, b, LineDomains);
    FlatMapConcat(a, b, LineUpstreams);
  }

  /** Silent lines on either side change nothing. */
  lemma DeclaresAround(a: seq<string>, b: seq<string>, c: seq<string>, domains: seq<string>, upstreams: seq<Upstream>)
    requires AllSilent(a) && Declares(b, domains, upstreams) && AllSilent(c)
    ensures Declares(a + b + c, domains, upstreams)
  {
    SilentDeclaresNothing(a);
    SilentDeclaresNothing(c);
    DeclaresConcat(a, b, [], [], domains, upstreams);
    DeclaresConcat(a + b, c, [] + domains, [] + upstreams, [], []);
    assert [] + domains + [] == domains && [] + upstreams + [] == upstreams;
  }

  ghost predicate UpstreamPrintable(u: Upstream) { u.ip != "" && All(u.ip, IsIpChar) && PortOk(u.port) }

  lemma OneServerDeclares(u: Upstream)
    requires UpstreamPrintable(u)
    ensures Declares([ServerLine(u)], [], [u])
  {
    ServerLineDeclares(u);
    OneLine(ServerLine(u));
  }

  lemma OneLine(line: string)
    ensures FlatMap([line], LineDomains) == LineDomains(line) && FlatMap([line], LineUpstreams) == LineUpstreams(line)
  {
    FlatMapSnoc([line], 0, LineDomains);
    FlatMapSnoc([line], 0, LineUpstreams);
    assert [line][..1] == [line] && [line][..0] == [];
  }

  lemma ServerLinesCons(us: seq<Upstream>)
    requires us != []
    ensures ServerLines(us) == [ServerLine(us[0])] + ServerLines(us[1..])
  {
    var lines, tail := ServerLines(us), ServerLines(us[1..]);
    assert forall i :: 0 <= i < |tail| ==> tail[i] == ServerLine(us[i + 1]) == lines[i + 1];
    HeadTail(lines);
    assert lines[1..] == tail;
  }

  lemma {:induction false} ServerLinesDeclare(us: seq<Upstream>)
    requires Every(us, UpstreamPrintable)
    ensures Declares(ServerLines(us), [], us)
  {
    if us == [] {
      assert ServerLines(us) == [];
    } else {
      OneServerDeclares(us[0]);
      ServerLinesDeclare(us[1..]);
      DeclaresConcat([ServerLine(us[0])], ServerLines(us[1..]), [], [us[0]], [], us[1..]);
      ServerLinesCons(us);
      HeadTail(us);
    }
  }

  lemma UpstreamCloseSilent()
    ensures AllSilent(Indent(MARGIN, KeepaliveLines()) + ["}"])
  {
    IndentedSilent(MARGIN, KeepaliveLines());
    AllAlone(["}"]);
    EveryConcat(Indent(MARGIN, KeepaliveLines()), ["}"], Silent);
  }

  lemma UpstreamOpenSilent(p: Payload)
    ensures AllSilent([UpstreamOpen(p)])
  {
    UpstreamNameWord(p.pipelineRef);
    assert Quiet(UpstreamOpen(p));
    AllAlone([UpstreamOpen(p)]);
  }

  lemma UpstreamBlockDeclares(p: Payload)
    requires Every(p.upstreams, UpstreamPrintable)
    ensures Declares(UpstreamBlock(p), [], p.upstreams)
  {
    if p.upstreams != [] {
      UpstreamOpenSilent(p);
      UpstreamCloseSilent();
      ServerLinesDeclare(p.upstreams);
      DeclaresAround([UpstreamOpen(p)], ServerLines(p.upstreams),
                     Indent(MARGIN, KeepaliveLines()) + ["}"], [], p.upstreams);
    }
  }

  lemma DomainCommentsSilent(domains: seq<string>)
    requires forall i :: 0 <= i < |domains| ==> NL !in domains[i]
    ensures AllSilent(DomainComments(domains))
  {
    forall i | 0 <= i < |domains| ensures Quiet(DomainComments(domains)[i]) {
      var line := "## " + domains[i];
      assert DomainComments(domains)[i] == line;
      assert line[1] == '#' && MARKER_START[1] == ' ';
      DiffersAt(line, MARKER_START, 1);
    }
    AllAlone(DomainComments(domains));
  }

  lemma ListenQuiet()
    ensures Quiet(ListenDirective())
  {
    TwoPieces("listen 80;                          " + "# D11: HTTP puro na origem ", "(cert é da CF, na borda)",
              ListenDirective());
  }

  lemma TwoPieces(first: string, second: string, line: string)
    requires line == first + second && first != "" && IsLower(first[0]) && first[0] != 's'
    requires NL !in first && NL !in second
    ensures Quiet(line)
  {
  }

  lemma ListenSilent()
    ensures Silent(MARGIN + ListenDirective())
  {
    ListenQuiet();
    QuietIsSilent(MARGIN, ListenDirective());
  }

  lemma ServerHeadSilent()
    ensures AllSilent(ServerHead())
  {
    QuietAlone("");
    OpenServerSilent();
    ListenSilent();
    Three("", "server {", MARGIN + ListenDirective());
  }

  lemma Three(a: string, b: string, c: string)
    requires Silent(a) && Silent(b) && Silent(c)
    ensures AllSilent([a, b, c])
  {
  }

  lemma OpenServerSilent()
    ensures Silent("server {")
  {
    OpenServerNames("server {");
    OpenServerPool("server {", "server", " {");
  }

  lemma OpenServerNames(line: string)
    requires line == "server {"
    ensures Plain(line) && ServerNames(line) == None
  {
    SkipReIs("", line);
    assert "" + line == line;
    NotAServerName(line);
    NotMarker("", line);
  }

  lemma OpenServerPool(line: string, word: string, rest: string)
    requires line == "server {" && word == "server" && rest == " {"
    ensures PoolMember(line) == None
  {
    SkipReIs("", line);
    assert "" + line == line;
    AfterPrefix(word, rest);
    assert word + rest == line;
    SkipReIs(" ", "{");
    assert " " + "{" == rest;
    NoAddress();
  }

  lemma NoAddress()
    ensures MemberAddress("{") == None
  {
    SpanIs("{", IsTokenChar, 1);
    assert "{"[1..] == "";
  }

  lemma ThenSilent(a: seq<string>, b: seq<string>, domains: seq<string>, upstreams: seq<Upstream>)
    requires Declares(a, domains, upstreams) && AllSilent(b)
    ensures Declares(a + b, domains, upstreams)
  {
    SilentDeclaresNothing(b);
    DeclaresConcat(a, b, domains, upstreams, [], []);
    assert domains + [] == domains && upstreams + [] == upstreams;
  }

  lemma Together(a: seq<string>, b: seq<string>, upstreams: seq<Upstream>, domains: seq<string>)
    requires Declares(a, [], upstreams) && Declares(b, domains, [])
    ensures Declares(a + b, domains, upstreams)
  {
    DeclaresConcat(a, b, [], upstreams, domains, []);
    assert [] + domains == domains && upstreams + [] == upstreams;
  }

  /** What the whole-file argument needs to know about a payload. */
  ghost predicate Printable(p: Payload, lib: Library) {
    && RefOk(p.pipelineRef) && p.revision > 0
    && p.domains != []
    && (forall i :: 0 <= i < |p.domains| ==>
        IsField(p.domains[i]) && All(p.domains[i], IsDomainChar) && DomainOk(p.domains[i]))
    && Every(p.upstreams, UpstreamPrintable)
    && LocationsOk(p, lib)
  }

  lemma ValidIsPrintable(p: Payload, lib: Library)
    requires Sound(lib) && ValidPayload(p, lib)
    ensures Printable(p, lib)
  {
    forall i | 0 <= i < |p.domains| ensures IsField(p.domains[i]) && All(p.domains[i], IsDomainChar) {
      DomainChars(p.domains[i]);
    }
    forall i | 0 <= i < |p.upstreams| ensures UpstreamPrintable(p.upstreams[i]) {
      assert UpstreamOk(p.upstreams[i], lib);
    }
  }

  lemma HeadDeclares(p: Payload, lib: Library, notes: Notes)
    requires Printable(p, lib) && NotesOk(notes)
    ensures Declares(DomainComments(p.domains) + CacheZone(p) + RateZone(p, notes) + UpstreamBlock(p) + ServerHead(),
                     [], p.upstreams)
  {
    DomainCommentsSilent(p.domains);
    CacheZoneSilent(p);
    RateZoneSilent(p, notes);
    EveryConcat(DomainComments(p.domains), CacheZone(p), Silent);
    EveryConcat(DomainComments(p.domains) + CacheZone(p), RateZone(p, notes), Silent);
    UpstreamBlockDeclares(p);
    ServerHeadSilent();
    DeclaresAround(DomainComments(p.domains) + CacheZone(p) + RateZone(p, notes),
                   UpstreamBlock(p), ServerHead(), [], p.upstreams);
  }

  lemma NameDeclares(p: Payload, lib: Library)
    requires Printable(p, lib)
    ensures Declares([ServerNameLine(p.domains)], p.domains, [])
  {
    NamesChars(p.domains);
    NameLineDeclares(p.domains, Join(p.domains, " "), ServerNameLine(p.domains));
    OneNameDeclares(ServerNameLine(p.domains), p.domains);
  }

  lemma OneNameDeclares(line: string, domains: seq<string>)
    requires ServerNames(line) == Some(domains) && Plain(line)
    ensures Declares([line], domains, [])
  {
    OneLine(line);
  }

  lemma SettingsSilent(notes: Notes)
    requires NotesOk(notes)
    ensures AllSilent(Indent(MARGIN, ServerSettings(notes)))
  {
    SettingsQuiet(notes);
    IndentedSilent(MARGIN, ServerSettings(notes));
  }

  lemma RoutesSilent(p: Payload, lib: Library, notes: Notes)
    requires LocationsOk(p, lib) && NotesOk(notes)
    ensures AllSilent(LocationBlocks(Locations.Ordered(p), p, notes))
  {
    OrderedOneLine(p, lib);
    LocationBlocksSilent(Locations.Ordered(p), p, notes);
  }

  lemma ClosingSilent()
    ensures AllSilent(["}", ""])
  {
    AllAlone(["}", ""]);
  }

  lemma BodyDeclares(p: Payload, lib: Library, notes: Notes)
    requires Printable(p, lib) && NotesOk(notes)
    ensures Declares(BodyLines(p, notes), p.domains, p.upstreams)
  {
    HeadDeclares(p, lib, notes);
    NameDeclares(p, lib);
    SettingsSilent(notes);
    RoutesSilent(p, lib, notes);
    ClosingSilent();
    BodyAssembles(
      DomainComments(p.domains) + CacheZone(p) + RateZone(p, notes) + UpstreamBlock(p) + ServerHead(),
      [ServerNameLine(p.domains)], Indent(MARGIN, ServerSettings(notes)),
      LocationBlocks(Locations.Ordered(p), p, notes), ["}", ""], p.domains, p.upstreams);
  }

  lemma BodyAssembles(head: seq<string>, name: seq<string>, settings: seq<string>, routes: seq<string>,
                      end: seq<string>,
                      domains: seq<string>, upstreams: seq<Upstream>)
    requires Declares(head, [], upstreams) && Declares(name, domains, [])
    requires AllSilent(settings) && AllSilent(routes) && AllSilent(end)
    ensures Declares(head + name + settings + routes + end, domains, upstreams)
  {
    Together(head, name, upstreams, domains);
    ThenSilent(head + name, settings, domains, upstreams);
    ThenSilent(head + name + settings, routes, domains, upstreams);
    ThenSilent(head + name + settings + routes, end, domains, upstreams);
  }

  lemma JoinedLines(header: string, body: seq<string>)
    requires NL !in header && AllPlain(body)
    ensures Lines(Unlines([header] + body)) == [header] + body
  {
    assert forall i :: 0 <= i < |body| ==> Plain(body[i]);
    SplitJoin([header] + body, NL);
  }

  lemma ParsesTo(header: string, body: seq<string>, app: string, revision: int, domains: seq<string>,
                 upstreams: seq<Upstream>)
    requires ManagedApp(TrimSpace(header)) == Some(app) && RevisionOf(header) == revision && NL !in header
    requires Declares(body, domains, upstreams)
    ensures ParseConf(Unlines([header] + body)) == Some(ManagedConf(app, revision, domains, upstreams))
  {
    JoinedLines(header, body);
    ConsTail(header, body);
  }

  /** Parsing what an accepted payload rendered to gives back its name, its
      revision, its domains and its upstreams, in order, whatever its routes,
      cache, rate limit and websocket flags. */
  lemma ParseRender(p: Payload, lib: Library, notes: Notes)
    requires Sound(lib) && ValidPayload(p, lib) && NotesOk(notes)
    ensures ParseConf(Render(p, notes)) == Some(ManagedConf(p.pipelineRef, p.revision, p.domains, p.upstreams))
  {
    ValidIsPrintable(p, lib);
    HeaderParses(p);
    BodyDeclares(p, lib, notes);
    ParsesTo(HeaderLine(p), BodyLines(p, notes), p.pipelineRef, p.revision, p.domains, p.upstreams);
  }

  lemma HeaderSilent(line: string, rest: string)
    requires line == HEADER_START + rest
    ensures MarkerOf(line) == None && LineDomains(line) == []
  {
    HeaderChars(line, rest);
    SilentComment(line);
  }

  lemma HeaderChars(line: string, rest: string)
    requires line == HEADER_START + rest
    ensures |line| > 2 && line[0] == '#' && line[2] == 'm'
  {
    assert HEADER_START[0] == '#' && HEADER_START[2] == 'm';
  }

  lemma SilentComment(line: string)
    requires |line| > 2 && line[0] == '#' && line[2] == 'm'
    ensures MarkerOf(line) == None && LineDomains(line) == []
  {
    assert MARKER_START[2] == 'c';
    DiffersAt(line, MARKER_START, 2);
    NotMarker("", line);
    assert "" + line == line;
    NoNames(line);
  }

  lemma NoNames(line: string)
    requires line != "" && line[0] == '#'
    ensures LineDomains(line) == []
  {
    SkipReIs("", line);
    assert "" + line == line;
    NotServerName(line);
  }

  lemma BlockFacts(header: string, body: seq<string>, app: string, domains: seq<string>)
    requires ManagedApp(TrimSpace(header)) == Some(app)
    requires MarkerOf(header) == None && LineDomains(header) == []
    requires AllPlain(body) && NamesIn(body) == domains
    ensures Unmarked([header] + body)
    ensures HeaderApp([header] + body) == Some(app)
    ensures NamesIn([header] + body) == domains
  {
    ConsTail(header, body);
    NotBlank(header);
    PlainUnmarked(body);
    HeaderUnmarked(header, body);
  }

  lemma HeaderUnmarked(header: string, body: seq<string>)
    requires MarkerOf(header) == None && Unmarked(body)
    ensures Unmarked([header] + body)
  {
    HeadOrTail(header, body);
  }

  lemma PlainUnmarked(lines: seq<string>)
    requires AllPlain(lines)
    ensures Unmarked(lines)
  {
  }

  lemma NotBlank(line: string)
    requires ManagedApp(TrimSpace(line)) != None
    ensures !IsBlankLine(line)
  {
  }

  /** In a dump, the rendered file is a managed block of its own application that
      declares exactly the payload's domains. */
  lemma BlockOfRender(p: Payload, lib: Library, notes: Notes)
    requires Sound(lib) && ValidPayload(p, lib) && NotesOk(notes)
    ensures Unmarked(Lines(Render(p, notes)))
    ensures HeaderApp(Lines(Render(p, notes))) == Some(p.pipelineRef)
    ensures NamesIn(Lines(Render(p, notes))) == p.domains
  {
    ValidIsPrintable(p, lib);
    HeaderParses(p);
    HeaderSilent(HeaderLine(p), "app=" + (p.pipelineRef + (" " + ("revision=" + Decimal(p.revision)))));
    BodyDeclares(p, lib, notes);
    JoinedLines(HeaderLine(p), BodyLines(p, notes));
    BlockFacts(HeaderLine(p), BodyLines(p, notes), p.pipelineRef, p.domains);
  }
}
