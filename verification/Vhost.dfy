/** The managed vhost: the text the listener's template renders from a payload. */
module Vhost {
  import opened Text
  import opened Payload
  import Locations

  // ---- the upstream block's name ----

  /** Every maximal run of characters that are not alphanumeric becomes one underscore. */
  function Collapse(s: string, inRun: bool): string {
    if s == [] then ""
    else if IsAlnum(s[0]) then [s[0]] + Collapse(s[1..], false)
    else (if inRun then "" else "_") + Collapse(s[1..], true)
  }

  function TrimUnderscores(s: string): string
    decreases |s|
  {
    if s != [] && s[0] == '_' then TrimUnderscores(s[1..])
    else if s != [] && s[|s| - 1] == '_' then TrimUnderscores(s[..|s| - 1])
    else s
  }

  function UpstreamName(ref: string): string {
    var safe := TrimUnderscores(Collapse(ref, false));
    (if safe == "" then "app" else safe) + "_pool"
  }

  // ---- routes ----

  function Destination(loc: LocationSpec, p: Payload): string {
    if loc.proxyPass != "" then loc.proxyPass else "http://" + UpstreamName(p.pipelineRef)
  }

  function WantsWebsocket(loc: LocationSpec, p: Payload): bool {
    if loc.websocket != None then loc.websocket.value else p.websocket
  }

  function Resolved(r: RateLimit): RateLimit {
    r.(rate := if r.rate <= 0 then DEFAULT_RATE else r.rate,
       burst := if r.burst <= 0 then DEFAULT_BURST else r.burst)
  }

  /** The template's explanatory comments, by the directive they explain. No
      parser reads them, so their wording is a parameter. */
  datatype Notes = Notes(rateZone: seq<string>, bodySize: seq<string>, rate: seq<string>)

  /** Each note is one comment line, and does not read like the start of a file in a dump. */
  ghost predicate NotesOk(notes: Notes) {
    Comments(notes.rateZone) && Comments(notes.bodySize) && Comments(notes.rate)
  }

  ghost predicate Comments(texts: seq<string>) {
    forall i :: 0 <= i < |texts| ==>
      texts[i] != "" && texts[i][0] == '#' && NL !in texts[i] && !HasPrefix(texts[i], "# configuration file ")
  }

  // ---- lines (long fixed texts are written in pieces) ----

  /** Indent every line that is not empty. */
  function Indent(margin: string, texts: seq<string>): (lines: seq<string>)
    ensures |lines| == |texts|
  {
    seq(|texts|, i requires 0 <= i < |texts| => if texts[i] == "" then "" else margin + texts[i])
  }

  const MARGIN := "    "
  const DEEP := "        "

  const HEADER_START := "# managed-by: deployer-lb-server "

  function HeaderLine(p: Payload): string {
    HEADER_START + ("app=" + (p.pipelineRef + (" " + ("revision=" + Decimal(p.revision)))))
  }

  function DomainComments(domains: seq<string>): (lines: seq<string>)
    ensures |lines| == |domains|
  {
    seq(|domains|, i requires 0 <= i < |domains| => "## " + domains[i])
  }

  function CacheZoneDirective(p: Payload): string {
    "proxy_cache_path /var/cache/nginx/" + UpstreamName(p.pipelineRef) + " levels=1:2 keys_zone="
    + UpstreamName(p.pipelineRef) + "_cache:10m max_size=1g " + "inactive=60m use_temp_path=off;"
  }

  function CacheZone(p: Payload): seq<string> {
    if !p.cache then [] else [CacheZoneDirective(p)]
  }

  function RateZoneDirective(p: Payload): string {
    "limit_req_zone " + "$binary_remote_addr zone=" + UpstreamName(p.pipelineRef) + "_rl:10m rate="
    + Decimal(Resolved(p.rateLimit).rate) + "r/s;"
  }

  function RateZone(p: Payload, notes: Notes): seq<string> {
    if !p.rateLimit.enabled then [] else notes.rateZone + [RateZoneDirective(p)]
  }

  function ServerLine(u: Upstream): string { MARGIN + "server " + u.ip + ":" + Decimal(u.port) + ";" }

  function ServerLines(us: seq<Upstream>): (lines: seq<string>)
    ensures |lines| == |us|
  {
    seq(|us|, i requires 0 <= i < |us| => ServerLine(us[i]))
  }

  function UpstreamOpen(p: Payload): string { "upstream " + UpstreamName(p.pipelineRef) + " {" }

  function KeepaliveLines(): seq<string> { ["keepalive 16;", "keepalive_timeout 60s;"] }

  function UpstreamBlock(p: Payload): seq<string> {
    if p.upstreams == [] then []
    else [UpstreamOpen(p)] + ServerLines(p.upstreams) + (Indent(MARGIN, KeepaliveLines()) + ["}"])
  }

  function ServerNameLine(domains: seq<string>): string {
    MARGIN + "server_name " + Join(domains, " ") + ";"
  }

  function ListenDirective(): string {
    "listen 80;                          " + "# D11: HTTP puro na origem " + "(cert é da CF, na borda)"
  }

  function ServerHead(): seq<string> { ["", "server {", MARGIN + ListenDirective()] }

  function Includes(): seq<string> {
    ["include snippets/error-pages.conf;",
     "include " + "snippets/cloudflare-real-ip.conf;   " + "# set_real_ip_from <ranges CF> + " +
       "real_ip_header CF-Connecting-IP"]
  }

  function ServerSettings(notes: Notes): seq<string> {
    ["underscores_in_headers on;"] + notes.bodySize + ["client_max_body_size 100m;"] + Includes()
  }

  function LocationOpen(loc: LocationSpec): string {
    "location " + (if loc.matcher == "" then "" else loc.matcher + " ") + loc.path + " {"
  }

  function ProxyHeaders(): seq<string> {
    ["proxy_http_version 1.1;",
     "proxy_set_header Connection \"\";",
     "proxy_set_header Host $host;",
     "proxy_set_header X-Real-IP $remote_addr;",
     "proxy_set_header X-Forwarded-For " + "$proxy_add_x_forwarded_for;",
     "proxy_set_header X-Forwarded-Proto " + "$scheme;",
     "proxy_pass_request_headers on;"]
  }

  function WebsocketHeaders(on: bool): seq<string> {
    if !on then [] else
      ["proxy_set_header Upgrade $http_upgrade;", "proxy_set_header Connection \"upgrade\";"]
  }

  function TimeoutLines(t: Timeouts): seq<string> {
    ["",
     "proxy_connect_timeout " + Decimal(t.connect) + "s;",
     "proxy_read_timeout " + Decimal(t.read) + "s;",
     "proxy_send_timeout " + Decimal(t.send) + "s;",
     "proxy_next_upstream error timeout " + "http_502 http_503 http_504;",
     "proxy_next_upstream_tries 2;"]
  }

  function RateDirectives(p: Payload): seq<string> {
    ["limit_req zone=" + UpstreamName(p.pipelineRef) + "_rl burst=" + Decimal(Resolved(p.rateLimit).burst) +
      " nodelay;",
     "limit_req_status 429;"]
  }

  function RateLines(p: Payload, notes: Notes): seq<string> {
    if !p.rateLimit.enabled then [] else [""] + notes.rate + RateDirectives(p)
  }

  function CacheUse(p: Payload): seq<string> {
    ["",
     "proxy_cache " + UpstreamName(p.pipelineRef) + "_cache;",
     "proxy_cache_valid 200 302 10m;",
     "proxy_cache_valid 404 1m;"]
  }

  function CacheStale(): seq<string> {
    ["proxy_cache_use_stale error timeout " + "updating http_500 http_502 " + "http_503 http_504;",
     "add_header X-Cache-Status " + "$upstream_cache_status;"]
  }

  function CacheLines(p: Payload): seq<string> {
    if !p.cache then [] else CacheUse(p) + CacheStale()
  }

  function LocationBody(loc: LocationSpec, p: Payload, notes: Notes): seq<string> {
    ["proxy_pass " + Destination(loc, p) + ";"] + ProxyHeaders() + WebsocketHeaders(WantsWebsocket(loc, p))
    + TimeoutLines(p.timeouts) + RateLines(p, notes) + CacheLines(p)
  }

  function LocationBlock(loc: LocationSpec, p: Payload, notes: Notes): seq<string> {
    ["", MARGIN + LocationOpen(loc)] + Indent(DEEP, LocationBody(loc, p, notes)) + ["    }"]
  }

  function LocationBlocks(locs: seq<LocationSpec>, p: Payload, notes: Notes): seq<string> {
    if locs == [] then [] else LocationBlock(locs[0], p, notes) + LocationBlocks(locs[1..], p, notes)
  }

  /** Everything after the managed-by header. */
  function BodyLines(p: Payload, notes: Notes): seq<string> {
    DomainComments(p.domains) + CacheZone(p) + RateZone(p, notes) + UpstreamBlock(p)
    + ServerHead() + [ServerNameLine(p.domains)] + Indent(MARGIN, ServerSettings(notes))
    + LocationBlocks(Locations.Ordered(p), p, notes) + ["}", ""]
  }

  function VhostLines(p: Payload, notes: Notes): seq<string> { [HeaderLine(p)] + BodyLines(p, notes) }

  /** The rendered file. */
  function Render(p: Payload, notes: Notes): string { Unlines(VhostLines(p, notes)) }
}
