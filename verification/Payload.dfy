/** The apply payload and the validation every field passes before it can
    become configuration text. */
module Payload {
  import opened Text

  datatype LocationSpec = LocationSpec(matcher: string, path: string, proxyPass: string, websocket: Option<bool>)

  datatype Upstream = Upstream(ip: string, port: int)

  datatype Timeouts = Timeouts(read: int, send: int, connect: int)

  datatype RateLimit = RateLimit(enabled: bool, rate: int, burst: int)

  /** Revisions are 64-bit signed integers. */
  type Int64 = x: int | -MAX_INT64 - 1 <= x <= MAX_INT64

  const MAX_INT64: int := 0x7FFF_FFFF_FFFF_FFFF
  const MAX_LOCATIONS := 32
  const CURRENT_SCHEMA_VERSION := 2
  const DEFAULT_RATE := 30
  const DEFAULT_BURST := 60

  datatype Payload = Payload(
    schemaVersion: int,
    revision: Int64,
    idempotencyKey: string,
    pipelineRef: string,
    repo: string,
    domains: seq<string>,
    exposure: string,
    upstreams: seq<Upstream>,
    websocket: bool,
    cache: bool,
    rateLimit: RateLimit,
    timeouts: Timeouts,
    locations: seq<LocationSpec>)
  {
    function ConfFileName(): string { pipelineRef + ".conf" }
  }

  /** The three library answers validation asks for: whether a text is an IP
      address, whether a pattern compiles, and whether a host is an address
      of this machine, of its link, or of a group. */
  datatype Library = Library(isIP: string -> bool, compiles: string -> bool, isLocal: string -> bool)

  /** What is relied on about `net.ParseIP`: an address is written with hexadecimal digits, colons and dots. */
  ghost predicate Sound(lib: Library) {
    forall s :: lib.isIP(s) ==> s != "" && All(s, IsIpChar)
  }

  // ---- character classes of the field patterns ----

  predicate IsIpChar(c: char) { IsDigit(c) || 'a' <= c <= 'f' || 'A' <= c <= 'F' || c == ':' || c == '.' }
  predicate IsRefChar(c: char) { IsLower(c) || IsDigit(c) || c == '_' || c == '-' }
  predicate IsRepoChar(c: char) { IsAlnum(c) || c == '_' || c == '.' || c == '-' }
  predicate IsKeyChar(c: char) { IsAlnum(c) || c == ':' || c == '_' || c == '.' || c == '-' }
  predicate IsLabelChar(c: char) { IsAlnum(c) || c == '-' }
  predicate IsPathChar(c: char) { IsAlnum(c) || c == '.' || c == '_' || c == '~' || c == '/' || c == '-' }
  predicate IsRegexChar(c: char) { IsPathChar(c) || c in "^$()|*+?:[]\\" }
  predicate IsHostChar(c: char) { IsRepoChar(c) }
  predicate IsControl(c: char) { c < ' ' || c == '\U{7F}' }

  predicate HasControl(s: string) { exists i :: 0 <= i < |s| && IsControl(s[i]) }

  predicate Contains(s: string, t: string) {
    HasPrefix(s, t) || (s != [] && Contains(s[1..], t))
  }

  // ---- field patterns ----

  predicate RefOk(s: string) { 1 <= |s| <= 100 && All(s, IsRefChar) }

  predicate RepoNameOk(s: string) { 1 <= |s| <= 100 && All(s, IsRepoChar) }

  predicate RepoOk(s: string) {
    var i := IndexOf(s, '/');
    i < |s| && RepoNameOk(s[..i]) && RepoNameOk(s[i + 1..])
  }

  predicate KeyOk(s: string) { 1 <= |s| <= 200 && All(s, IsKeyChar) }

  predicate LabelOk(s: string) {
    1 <= |s| <= 63 && All(s, IsLabelChar) && IsAlnum(s[0]) && IsAlnum(s[|s| - 1])
  }

  predicate DomainOk(s: string) {
    var labels := Split(s, '.');
    && |labels| >= 2
    && (forall i :: 0 <= i < |labels| - 1 ==> LabelOk(labels[i]))
    && 2 <= |labels[|labels| - 1]| <= 63 && All(labels[|labels| - 1], IsAlpha)
  }

  predicate LocPathOk(s: string) {
    1 <= |s| <= 256 && s[0] == '/' && All(s, IsPathChar)
  }

  predicate LocRegexOk(s: string) { 1 <= |s| <= 200 && All(s, IsRegexChar) }

  predicate IsPlainMatcher(m: string) { m == "" || m == "=" || m == "^~" }
  predicate IsRegexMatcher(m: string) { m == "~" || m == "~*" }

  datatype Url = Url(host: string, port: string, path: string)

  /** `http(s)://host[:port][/path]`, taken apart. */
  function ParseProxyPass(s: string): Option<Url> {
    if HasPrefix(s, "http://") then ParseAuthority(s[7..])
    else if HasPrefix(s, "https://") then ParseAuthority(s[8..])
    else None
  }

  function ParseAuthority(s: string): Option<Url> {
    var h := Span(s, IsHostChar);
    if !(1 <= h <= 253) then None
    else if h < |s| && s[h] == ':' then
      var rest := s[h + 1..];
      var d := Span(rest, IsDigit);
      if 1 <= d <= 5 && UrlPathOk(rest[d..]) then Some(Url(s[..h], rest[..d], rest[d..])) else None
    else if UrlPathOk(s[h..]) then Some(Url(s[..h], "", s[h..]))
    else None
  }

  predicate UrlPathOk(s: string) {
    s == "" || (s[0] == '/' && |s| <= 201 && All(s[1..], IsPathChar))
  }

  predicate PortOk(port: int) { 1 <= port <= 65535 }

  predicate PortTextOk(port: string) {
    port == "" || (All(port, IsDigit) && PortOk(Value(port)))
  }

  predicate ProxyPassOk(loc: LocationSpec, lib: Library) {
    match ParseProxyPass(loc.proxyPass)
    case None => false
    case Some(url) =>
      && PortTextOk(url.port)
      && !lib.isLocal(url.host)
      && (IsRegexMatcher(loc.matcher) ==> url.path == "")
  }

  // ---- locations ----

  function LocationKey(loc: LocationSpec): string { loc.matcher + " " + loc.path }

  predicate MatcherAndPathOk(loc: LocationSpec, lib: Library) {
    if IsPlainMatcher(loc.matcher) then
      LocPathOk(loc.path) && !Contains(loc.path, "..") && !Contains(loc.path, "//")
    else
      IsRegexMatcher(loc.matcher) && LocRegexOk(loc.path) && lib.compiles(loc.path)
  }

  predicate LocationOk(loc: LocationSpec, lib: Library) {
    && !HasControl(loc.path) && !HasControl(loc.proxyPass)
    && MatcherAndPathOk(loc, lib)
    && (loc.proxyPass != "" ==> ProxyPassOk(loc, lib))
  }

  predicate DistinctKeys(locs: seq<LocationSpec>) {
    forall i, j :: 0 <= i < j < |locs| ==> LocationKey(locs[i]) != LocationKey(locs[j])
  }

  predicate UsesPool(locs: seq<LocationSpec>) {
    exists i :: 0 <= i < |locs| && locs[i].proxyPass == ""
  }

  predicate LocationsOk(p: Payload, lib: Library) {
    && |p.locations| <= MAX_LOCATIONS
    && (forall i :: 0 <= i < |p.locations| ==> LocationOk(p.locations[i], lib))
    && DistinctKeys(p.locations)
    && (UsesPool(p.locations) ==> p.upstreams != [])
  }

  /** Distinct keys are distinct (matcher, path) pairs: a matcher holds no blank,
      so the first blank of a key ends it. */
  lemma KeyDeterminesLocation(a: LocationSpec, b: LocationSpec)
    requires IsPlainMatcher(a.matcher) || IsRegexMatcher(a.matcher)
    requires IsPlainMatcher(b.matcher) || IsRegexMatcher(b.matcher)
    ensures LocationKey(a) == LocationKey(b) <==> a.matcher == b.matcher && a.path == b.path
  {
    IndexOfIs(LocationKey(a), ' ', |a.matcher|);
    IndexOfIs(LocationKey(b), ' ', |b.matcher|);
    if LocationKey(a) == LocationKey(b) {
      assert LocationKey(a)[..|a.matcher|] == a.matcher;
      assert LocationKey(b)[..|b.matcher|] == b.matcher;
      assert LocationKey(a)[|a.matcher| + 1..] == a.path;
      assert LocationKey(b)[|b.matcher| + 1..] == b.path;
    }
  }

  // ---- the whole payload ----

  predicate UpstreamOk(u: Upstream, lib: Library) { lib.isIP(u.ip) && PortOk(u.port) }

  predicate ValidPayload(p: Payload, lib: Library) {
    && (p.schemaVersion == 1 || p.schemaVersion == CURRENT_SCHEMA_VERSION)
    && (p.locations != [] ==> p.schemaVersion >= CURRENT_SCHEMA_VERSION)
    && p.revision > 0
    && KeyOk(p.idempotencyKey) && RefOk(p.pipelineRef) && RepoOk(p.repo)
    && p.domains != [] && (forall i :: 0 <= i < |p.domains| ==> DomainOk(p.domains[i]))
    && (p.exposure == "external" || p.exposure == "internal")
    && (p.upstreams != [] || p.locations != [])
    && (forall i :: 0 <= i < |p.upstreams| ==> UpstreamOk(p.upstreams[i], lib))
    && LocationsOk(p, lib)
  }

  datatype FieldError =
    | BadSchemaVersion | LocationsNeedV2 | BadRevision | BadIdempotencyKey | BadPipelineRef | BadRepo
    | NoDomains | BadDomain(domain: string) | BadExposure | NoUpstreams | BadUpstreamIP(ip: string)
    | BadUpstreamPort(port: int) | TooManyLocations | ControlCharacters(at: nat) | BadPath(at: nat)
    | BadRegex(at: nat) | BadMatcher(at: nat) | DuplicateLocation(at: nat)
    | BadProxyPass(at: nat) | PoolWithoutUpstreams

  /** The errors of one route taken alone. Control characters end the inspection of a route. */
  function RouteErrors(loc: LocationSpec, at: nat, lib: Library): (errs: seq<FieldError>)
    ensures errs == [] <==> LocationOk(loc, lib)
  {
    if HasControl(loc.path) || HasControl(loc.proxyPass) then [ControlCharacters(at)]
    else
      MatcherErrors(loc, at, lib) +
      if loc.proxyPass != "" && !ProxyPassOk(loc, lib) then [BadProxyPass(at)] else []
  }

  function MatcherErrors(loc: LocationSpec, at: nat, lib: Library): (errs: seq<FieldError>)
    ensures errs == [] <==> MatcherAndPathOk(loc, lib)
  {
    if IsPlainMatcher(loc.matcher) then
      if !LocPathOk(loc.path) || Contains(loc.path, "..") || Contains(loc.path, "//") then [BadPath(at)] else []
    else if IsRegexMatcher(loc.matcher) then
      if !LocRegexOk(loc.path) || !lib.compiles(loc.path) then [BadRegex(at)] else []
    else [BadMatcher(at)]
  }

  ghost function Keys(locs: seq<LocationSpec>): set<string> {
    set k | 0 <= k < |locs| :: LocationKey(locs[k])
  }

  ghost predicate RoutesOk(locs: seq<LocationSpec>, lib: Library) {
    (forall i :: 0 <= i < |locs| ==> LocationOk(locs[i], lib)) && DistinctKeys(locs)
  }

  lemma RoutesGrow(locs: seq<LocationSpec>, loc: LocationSpec, lib: Library)
    ensures Keys(locs + [loc]) == Keys(locs) + {LocationKey(loc)}
    ensures UsesPool(locs + [loc]) <==> UsesPool(locs) || loc.proxyPass == ""
    ensures RoutesOk(locs + [loc], lib) <==>
      RoutesOk(locs, lib) && LocationOk(loc, lib) && LocationKey(loc) !in Keys(locs)
  {
    var more := locs + [loc];
    assert more[|locs|] == loc;
    assert forall k :: 0 <= k < |locs| ==> more[k] == locs[k];
    if DistinctKeys(locs) && LocationKey(loc) !in Keys(locs) {
      forall i, j | 0 <= i < j < |more| ensures LocationKey(more[i]) != LocationKey(more[j]) {
        assert LocationKey(locs[i]) in Keys(locs);
      }
    }
    if DistinctKeys(more) {
      assert forall i, j :: 0 <= i < j < |locs| ==>
        LocationKey(locs[i]) == LocationKey(more[i]) && LocationKey(locs[j]) == LocationKey(more[j]);
    }
  }

  /** `validateLocations`: the errors of the routes, none exactly when every rule holds. */
  method ValidateLocations(p: Payload, lib: Library) returns (errs: seq<FieldError>)
    ensures errs == [] <==> LocationsOk(p, lib)
  {
    if |p.locations| == 0 { return []; }
    if |p.locations| > MAX_LOCATIONS { return [TooManyLocations]; }
    var usesPool;
    errs, usesPool := RouteLoop(p.locations, lib);
    if usesPool && |p.upstreams| == 0 {
      errs := errs + [PoolWithoutUpstreams];
    }
  }

  method RouteLoop(locs: seq<LocationSpec>, lib: Library) returns (errs: seq<FieldError>, usesPool: bool)
    ensures errs == [] <==> RoutesOk(locs, lib)
    ensures errs == [] ==> (usesPool <==> UsesPool(locs))
  {
    errs, usesPool := [], false;
    var seen: set<string> := {};
    for i := 0 to |locs|
      invariant errs == [] <==> RoutesOk(locs[..i], lib)
      invariant errs == [] ==> (usesPool <==> UsesPool(locs[..i])) && seen == Keys(locs[..i])
    {
      var loc := locs[i];
      assert locs[..i + 1] == locs[..i] + [loc];
      RoutesGrow(locs[..i], loc, lib);
      var own := RouteErrors(loc, i, lib);
      errs := errs + own;
      if HasControl(loc.path) || HasControl(loc.proxyPass) { continue; }
      var key := LocationKey(loc);
      if key in seen { errs := errs + [DuplicateLocation(i)]; }
      seen := seen + {key};
      if loc.proxyPass == "" { usesPool := true; }
    }
    assert locs[..|locs|] == locs;
  }

  /** `ValidatePayload`: every broken rule is reported, and nothing is reported exactly when the payload is valid. */
  method ValidatePayload(p: Payload, lib: Library) returns (errs: seq<FieldError>)
    ensures errs == [] <==> ValidPayload(p, lib)
    ensures forall i :: 0 <= i < |p.domains| && !DomainOk(p.domains[i]) ==> BadDomain(p.domains[i]) in errs
    ensures forall i :: 0 <= i < |p.upstreams| && !lib.isIP(p.upstreams[i].ip) ==>
      BadUpstreamIP(p.upstreams[i].ip) in errs
  {
    errs := [];
    if p.schemaVersion != 1 && p.schemaVersion != CURRENT_SCHEMA_VERSION { errs := errs + [BadSchemaVersion]; }
    if |p.locations| > 0 && p.schemaVersion < CURRENT_SCHEMA_VERSION { errs := errs + [LocationsNeedV2]; }
    if p.revision <= 0 { errs := errs + [BadRevision]; }
    if !KeyOk(p.idempotencyKey) { errs := errs + [BadIdempotencyKey]; }
    if !RefOk(p.pipelineRef) { errs := errs + [BadPipelineRef]; }
    if !RepoOk(p.repo) { errs := errs + [BadRepo]; }
    if |p.domains| == 0 { errs := errs + [NoDomains]; }
    ghost var heads := errs == [];
    for i := 0 to |p.domains|
      invariant errs == [] <==> heads && forall k :: 0 <= k < i ==> DomainOk(p.domains[k])
      invariant forall k :: 0 <= k < i && !DomainOk(p.domains[k]) ==> BadDomain(p.domains[k]) in errs
    {
      if !DomainOk(p.domains[i]) { errs := errs + [BadDomain(p.domains[i])]; }
    }
    if p.exposure != "external" && p.exposure != "internal" { errs := errs + [BadExposure]; }
    if |p.upstreams| == 0 && |p.locations| == 0 { errs := errs + [NoUpstreams]; }
    ghost var soFar := errs;
    for i := 0 to |p.upstreams|
      invariant forall e :: e in soFar ==> e in errs
      invariant errs == [] <==> soFar == [] && forall k :: 0 <= k < i ==> UpstreamOk(p.upstreams[k], lib)
      invariant forall k :: 0 <= k < i && !lib.isIP(p.upstreams[k].ip) ==> BadUpstreamIP(p.upstreams[k].ip) in errs
    {
      if !lib.isIP(p.upstreams[i].ip) { errs := errs + [BadUpstreamIP(p.upstreams[i].ip)]; }
      if !PortOk(p.upstreams[i].port) { errs := errs + [BadUpstreamPort(p.upstreams[i].port)]; }
    }
    assert forall k :: 0 <= k < |p.domains| && !DomainOk(p.domains[k]) ==> BadDomain(p.domains[k]) in soFar;
    assert forall e :: e in soFar ==> e in errs;
    var locErrs := ValidateLocations(p, lib);
    errs := errs + locErrs;
  }
}
