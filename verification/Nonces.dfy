/** Replay protection: a timestamp window together with an expiring set of nonces. */
module Nonces {
  import opened Text

  // ---- time: instants and durations in nanoseconds, durations in 64 bits ----

  const SECOND := 1_000_000_000
  const MAX_DURATION := 0x7FFF_FFFF_FFFF_FFFF
  const MIN_DURATION := -0x8000_0000_0000_0000

  /** Seconds between the zero time of the library and 1970. */
  const UNIX_TO_INTERNAL := 62135596800

  /** A 64-bit sum. */
  function Wrap(x: int): int { (x - MIN_DURATION) % (MAX_DURATION - MIN_DURATION + 1) + MIN_DURATION }

  /** `time.Unix(ts, 0)`, whose internal seconds may wrap. */
  function Instant(ts: int): int { (Wrap(ts + UNIX_TO_INTERNAL) - UNIX_TO_INTERNAL) * SECOND }

  /** `Time.Sub` saturates. */
  function Sub(t: int, u: int): int {
    if t - u > MAX_DURATION then MAX_DURATION else if t - u < MIN_DURATION then MIN_DURATION else t - u
  }

  /** Negating the least duration gives it back. */
  function Negate(d: int): int { if d == MIN_DURATION then MIN_DURATION else -d }

  /** `strconv.ParseInt(s, 10, 64)`. */
  function ParseInt(s: string): Option<int> {
    var signed := s != "" && (s[0] == '+' || s[0] == '-');
    var digits := if signed then s[1..] else s;
    if digits == "" || !All(digits, IsDigit) then None
    else
      var sign := if signed && s[0] == '-' then -1 else 1;
      var n := sign * Value(digits);
      if MIN_DURATION <= n <= MAX_DURATION then Some(n) else None
  }

  datatype TimestampError = Missing | Malformed | OutsideWindow

  /** `CheckTimestamp`. */
  function CheckTimestamp(text: string, now: int, window: int): Option<TimestampError> {
    if text == "" then Some(Missing)
    else match ParseInt(text)
      case None => Some(Malformed)
      case Some(ts) =>
        var diff := Sub(now, Instant(ts));
        if (if diff < 0 then Negate(diff) else diff) > window then Some(OutsideWindow) else None
  }

  /** A timestamp so far ahead that its distance does not fit a duration. */
  predicate FarAhead(text: string, now: int) {
    ParseInt(text) != None && now - Instant(ParseInt(text).value) <= MIN_DURATION
  }

  // ---- the cache ----

  type Seen = map<string, int>

  function Live(seen: Seen, now: int): Seen { map n | n in seen && seen[n] > now :: seen[n] }

  /** `CheckAndStore`: whether the nonce is new, and what is remembered. */
  function Check(seen: Seen, nonce: string, now: int, ttl: int): (Seen, bool) {
    if nonce == "" then (seen, false)
    else if nonce in Live(seen, now) then (Live(seen, now), false)
    else (Live(seen, now)[nonce := now + ttl], true)
  }

  class NonceCache {
    const ttl: int
    var seen: Seen

    constructor (ttl: int)
      ensures this.ttl == ttl && seen == map[]
    {
      this.ttl, seen := ttl, map[];
    }

    method Sweep(now: int)
      modifies this
      ensures seen == Live(old(seen), now)
    {
      var nonces := seen.Keys;
      while nonces != {}
        invariant nonces <= old(seen).Keys
        invariant seen == map n | n in old(seen) && (n in nonces || old(seen)[n] > now) :: old(seen)[n]
        decreases nonces
      {
        var n :| n in nonces;
        nonces := nonces - {n};
        if seen[n] <= now { seen := seen - {n}; }
      }
    }

    method CheckAndStore(nonce: string, now: int) returns (isNew: bool)
      modifies this
      ensures (seen, isNew) == Check(old(seen), nonce, now, ttl)
      ensures isNew ==> nonce in seen && seen[nonce] == now + ttl
      ensures !isNew && nonce != "" ==> nonce in seen && nonce in old(seen) && old(seen)[nonce] == seen[nonce] > now
      ensures forall n :: n in seen && n != nonce ==> n in old(seen) && old(seen)[n] == seen[n]
      ensures forall n :: n in old(seen) && n != nonce && old(seen)[n] > now ==> n in seen
    {
      if nonce == "" { return false; }
      Sweep(now);
      if nonce in seen && seen[nonce] > now { return false; }
      seen := seen[nonce := now + ttl];
      return true;
    }
  }

  // ---- the gate in front of apply, delete and pool ----

  datatype Endpoint = ApplyEndpoint | DeleteEndpoint | PoolEndpoint

  /** A request that carries the bearer token. `now` is the handler's clock reading. */
  datatype Request = Request(endpoint: Endpoint, ts: string, nonce: string, signed: bool, now: int)

  datatype Config = Config(window: int, ttl: int)

  /** The three handlers check in the same order: timestamp, signature, nonce. */
  function Gate(seen: Seen, r: Request, cfg: Config): (Seen, bool) {
    if CheckTimestamp(r.ts, r.now, cfg.window) != None || !r.signed then (seen, false)
    else Check(seen, r.nonce, r.now, cfg.ttl)
  }

  /** What a process has accepted so far. */
  datatype Sys = Sys(seen: Seen, accepted: seq<Request>)

  function Step(sys: Sys, r: Request, cfg: Config): Sys {
    var (seen, ok) := Gate(sys.seen, r, cfg);
    Sys(seen, if ok then sys.accepted + [r] else sys.accepted)
  }

  function Run(requests: seq<Request>, cfg: Config): Sys {
    if requests == [] then Sys(map[], [])
    else Step(Run(requests[..|requests| - 1], cfg), requests[|requests| - 1], cfg)
  }

  ghost predicate ClockMonotone(requests: seq<Request>) {
    forall i, j :: 0 <= i < j < |requests| ==> requests[i].now <= requests[j].now
  }

  /** Each acceptance is still remembered, or its time to live is over. */
  ghost predicate Remembered(sys: Sys, now: int, ttl: int) {
    forall i :: 0 <= i < |sys.accepted| ==>
      var r := sys.accepted[i];
      now >= r.now + ttl || (r.nonce in sys.seen && sys.seen[r.nonce] >= r.now + ttl)
  }

  /** Two acceptances of one nonce are at least a time to live apart. */
  ghost predicate Spaced(accepted: seq<Request>, ttl: int) {
    forall i, j :: 0 <= i < j < |accepted| && accepted[i].nonce == accepted[j].nonce ==>
      accepted[j].now >= accepted[i].now + ttl
  }

  ghost predicate AllAccepted(accepted: seq<Request>, cfg: Config) {
    forall i :: 0 <= i < |accepted| ==> CheckTimestamp(accepted[i].ts, accepted[i].now, cfg.window) == None
  }

  lemma StepKeeps(sys: Sys, r: Request, cfg: Config)
    requires Remembered(sys, r.now, cfg.ttl) && Spaced(sys.accepted, cfg.ttl)
    ensures Remembered(Step(sys, r, cfg), r.now, cfg.ttl) && Spaced(Step(sys, r, cfg).accepted, cfg.ttl)
  {
    var next := Step(sys, r, cfg);
    forall i | 0 <= i < |sys.accepted| ensures next.accepted[i] == sys.accepted[i] {
    }
    if |next.accepted| > |sys.accepted| {
      forall i | 0 <= i < |sys.accepted| && sys.accepted[i].nonce == r.nonce
        ensures r.now >= sys.accepted[i].now + cfg.ttl
      {
      }
    }
  }

  lemma {:induction false} RunKeeps(requests: seq<Request>, cfg: Config)
    requires ClockMonotone(requests)
    ensures Spaced(Run(requests, cfg).accepted, cfg.ttl) && AllAccepted(Run(requests, cfg).accepted, cfg)
    ensures requests != [] ==> Remembered(Run(requests, cfg), requests[|requests| - 1].now, cfg.ttl)
  {
    if requests != [] {
      var pre, r := requests[..|requests| - 1], requests[|requests| - 1];
      RunKeeps(pre, cfg);
      assert pre != [] ==> requests[|pre| - 1].now <= r.now;
      StepKeeps(Run(pre, cfg), r, cfg);
    }
  }

  /** A timestamp is accepted when it is inside the window, and otherwise only when it is too far ahead to measure. */
  lemma WindowMeaning(text: string, now: int, window: int)
    requires window >= 0 && ParseInt(text) != None
    ensures var ts := Instant(ParseInt(text).value);
      CheckTimestamp(text, now, window) == None <==>
        -window <= now - ts <= window || FarAhead(text, now) || window >= MAX_DURATION
  {
  }

  /** In one process lifetime no two accepted requests carry the same timestamp
      and nonce, whichever endpoints they reached and whatever was swept in
      between, provided no accepted timestamp is too far ahead to measure. */
  lemma NoReplay(requests: seq<Request>, cfg: Config, i: nat, j: nat)
    requires ClockMonotone(requests) && 0 <= cfg.window < MAX_DURATION && cfg.ttl > 2 * cfg.window
    requires var accepted := Run(requests, cfg).accepted;
      i < j < |accepted| && !FarAhead(accepted[i].ts, accepted[i].now) && !FarAhead(accepted[j].ts, accepted[j].now)
    ensures Run(requests, cfg).accepted[i].ts != Run(requests, cfg).accepted[j].ts
      || Run(requests, cfg).accepted[i].nonce != Run(requests, cfg).accepted[j].nonce
  {
    RunKeeps(requests, cfg);
    var a, b := Run(requests, cfg).accepted[i], Run(requests, cfg).accepted[j];
    WindowMeaning(a.ts, a.now, cfg.window);
    WindowMeaning(b.ts, b.now, cfg.window);
  }

  // ---- both conditions are needed ----

  ghost predicate SamePair(a: Request, b: Request) { a.ts == b.ts && a.nonce == b.nonce && a.now <= b.now }

  ghost predicate BothAccepted(a: Request, b: Request, cfg: Config) { Run([a, b], cfg).accepted == [a, b] }

  /** Two requests of one pair are both accepted when each passes the other
      checks and the first is forgotten by then. */
  lemma PairAccepted(a: Request, b: Request, cfg: Config)
    requires SamePair(a, b)
    ensures BothAccepted(a, b, cfg) <==>
      && a.signed && b.signed && a.nonce != "" && a.now + cfg.ttl <= b.now
      && CheckTimestamp(a.ts, a.now, cfg.window) == None && CheckTimestamp(b.ts, b.now, cfg.window) == None
  {
    RunOne(a, cfg);
    RunTwo(a, b, cfg);
    var one := Run([a], cfg);
    var (seen, ok) := Gate(one.seen, b, cfg);
    if one.accepted == [a] {
      assert one.seen == map[a.nonce := a.now + cfg.ttl];
      assert Live(one.seen, b.now) == if a.now + cfg.ttl > b.now then one.seen else map[];
    }
  }

  lemma RunOne(a: Request, cfg: Config)
    ensures Run([a], cfg) == Step(Sys(map[], []), a, cfg)
  {
    assert [a][..0] == [];
  }

  lemma RunTwo(a: Request, b: Request, cfg: Config)
    ensures Run([a, b], cfg) == Step(Run([a], cfg), b, cfg)
  {
    assert [a, b][..1] == [a];
  }

  /** A request stamped `ts` seconds after 1970 that reaches the cache at `now`. */
  function Stamped(ts: nat, now: int): Request { Request(ApplyEndpoint, Digits(ts), "n", true, now) }

  lemma StampParses(ts: nat)
    requires ts + UNIX_TO_INTERNAL <= MAX_DURATION
    ensures Digits(ts) != "" && ParseInt(Digits(ts)) == Some(ts as int) && Instant(ts) == ts * SECOND
  {
    ValueDigits(ts);
    DigitsParse(Digits(ts), ts);
    InstantIs(ts);
  }

  lemma InstantIs(ts: nat)
    requires ts + UNIX_TO_INTERNAL <= MAX_DURATION
    ensures Instant(ts) == ts * SECOND
  {
  }

  lemma DigitsParse(s: string, n: nat)
    requires s != "" && All(s, IsDigit) && Value(s) == n && n <= MAX_DURATION
    ensures ParseInt(s) == Some(n as int)
  {
    assert IsDigit(s[0]);
  }

  /** Nonces must outlive the whole window: no shorter time to live keeps two
      measurable requests of one pair from being accepted, whatever the timestamp. */
  lemma TtlExact(ts: string, cfg: Config)
    requires ParseInt(ts) != None && 0 <= cfg.window < MAX_DURATION
    ensures cfg.ttl > 2 * cfg.window <==>
      forall a, b :: SamePair(a, b) && a.ts == ts && !FarAhead(a.ts, a.now) && !FarAhead(b.ts, b.now) ==>
        !BothAccepted(a, b, cfg)
  {
    if cfg.ttl > 2 * cfg.window {
      forall a, b | SamePair(a, b) && a.ts == ts && !FarAhead(a.ts, a.now) && !FarAhead(b.ts, b.now)
        ensures !BothAccepted(a, b, cfg)
      {
        PairAccepted(a, b, cfg);
        WindowMeaning(a.ts, a.now, cfg.window);
        WindowMeaning(b.ts, b.now, cfg.window);
      }
    } else {
      var t := Instant(ParseInt(ts).value);
      var early := Request(ApplyEndpoint, ts, "n", true, t - cfg.window);
      var late := Request(ApplyEndpoint, ts, "n", true, t + cfg.window);
      PairAccepted(early, late, cfg);
      WindowMeaning(early.ts, early.now, cfg.window);
      WindowMeaning(late.ts, late.now, cfg.window);
    }
  }

  /** With nonces that outlive the window, a pair is accepted twice exactly when
      the first request's timestamp is too far ahead to measure and the second
      is not refused for its own distance. */
  lemma FarAheadExact(a: Request, b: Request, cfg: Config)
    requires SamePair(a, b) && ParseInt(a.ts) != None && a.ts != "" && a.signed && b.signed && a.nonce != ""
    requires 0 <= cfg.window < MAX_DURATION && cfg.ttl > 2 * cfg.window && a.now + cfg.ttl <= b.now
    ensures BothAccepted(a, b, cfg) <==>
      FarAhead(a.ts, a.now) &&
        (FarAhead(b.ts, b.now) || -cfg.window <= b.now - Instant(ParseInt(b.ts).value) <= cfg.window)
  {
    PairAccepted(a, b, cfg);
    WindowMeaning(a.ts, a.now, cfg.window);
    WindowMeaning(b.ts, b.now, cfg.window);
  }

  /** With the default window of thirty seconds and time to live of five
      minutes: any timestamp some 293 years ahead is accepted twice. */
  lemma FarAheadWitness(ts: nat, now: nat)
    requires ts + UNIX_TO_INTERNAL <= MAX_DURATION && ts >= now + 9_223_372_337
    ensures var cfg := Config(30 * SECOND, 300 * SECOND);
      BothAccepted(Stamped(ts, now * SECOND), Stamped(ts, (now + 300) * SECOND), cfg)
  {
    StampParses(ts);
    var a, b := Stamped(ts, now * SECOND), Stamped(ts, (now + 300) * SECOND);
    FarAheadExact(a, b, Config(30 * SECOND, 300 * SECOND));
  }
}
