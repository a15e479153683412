/** The operator's block and allow lists: which entries are refused, and how the
    four sets are brought to what was asked for. */
module IpGuard {
  import opened Text
  import opened Masks

  // ---- ranges of IPv4 addresses ----

  /** A range as section 3.1 of RFC 4632 writes it: the addresses that share their first `len` bits with `addr`. */
  datatype Cidr = Cidr(addr: nat, len: nat)

  predicate InCidr(x: nat, c: Cidr)
    requires c.len <= 32
  {
    x < WORD && Block(x, c.len) == Block(c.addr, c.len)
  }

  predicate IsOctet(s: string) { 1 <= |s| <= 3 && All(s, IsDigit) }

  predicate IsV4Addr(s: string) {
    var parts := Split(s, '.');
    |parts| == 4 && IsOctet(parts[0]) && IsOctet(parts[1]) && IsOctet(parts[2]) && IsOctet(parts[3])
  }

  function ToInt(s: string): nat
    requires IsV4Addr(s)
  {
    var parts := Split(s, '.');
    Value(parts[0]) * 0x100_0000 + Value(parts[1]) * 0x1_0000 + Value(parts[2]) * 0x100 + Value(parts[3])
  }

  /** What precedes the first slash. */
  function AddrPart(s: string): string { s[..IndexOf(s, '/')] }

  /** What follows the last slash, or 32 when there is none. */
  function LenPart(s: string): string {
    var i := LastIndexOf(s, '/');
    if i == |s| then "32" else s[i + 1..]
  }

  predicate IsNumber(s: string) { s != "" && All(s, IsDigit) }

  predicate IsOctal(c: char) { '0' <= c <= '7' }

  /** A leading zero makes the shell read a number in base eight. */
  predicate LeadsWithZero(s: string) { |s| > 1 && s[0] == '0' }

  /** A number the shell can read, without overflow. */
  predicate IsPlain(s: string) { IsNumber(s) && |s| <= 18 && (LeadsWithZero(s) ==> All(s, IsOctal)) }

  function OctalValue(s: string): nat
    requires All(s, IsOctal)
  {
    if s == "" then 0 else OctalValue(s[..|s| - 1]) * 8 + (s[|s| - 1] as int - '0' as int)
  }

  /** The number as the shell's arithmetic reads it. */
  function ShellValue(s: string): nat
    requires IsPlain(s)
  {
    if LeadsWithZero(s) then OctalValue(s) else Value(s)
  }

  /** A length that is no number to the shell, such as `08`, or too long for it. */
  predicate Odd(s: string) { IsV4Addr(AddrPart(s)) && IsNumber(LenPart(s)) && !IsPlain(LenPart(s)) }

  /** The range an entry denotes to the shell. */
  function ParseCidr(s: string): (c: Option<Cidr>)
    ensures c != None ==> c.value.len <= 32
  {
    if !IsV4Addr(AddrPart(s)) || !IsPlain(LenPart(s)) || ShellValue(LenPart(s)) > 32 then None
    else Some(Cidr(ToInt(AddrPart(s)), ShellValue(LenPart(s))))
  }

  /** The arithmetic of `_v4_contains`. */
  predicate CidrContains(outer: Cidr, inner: Cidr)
    requires outer.len <= 32 && inner.len <= 32
  {
    if inner.len < outer.len then false
    else if outer.len == 0 then true
    else And(outer.addr, Mask(outer.len)) == And(inner.addr, Mask(outer.len))
  }

  /** `_v4_contains`. `odd` answers for lengths the shell cannot read. */
  predicate Contains(outer: string, inner: string, odd: (string, string) -> bool) {
    if !IsV4Addr(AddrPart(outer)) || !IsV4Addr(AddrPart(inner)) then true
    else if !IsNumber(LenPart(outer)) || !IsNumber(LenPart(inner)) then true
    else if Odd(outer) || Odd(inner) then odd(outer, inner)
    else if ShellValue(LenPart(outer)) > 32 || ShellValue(LenPart(inner)) > 32 then true
    else CidrContains(ParseCidr(outer).value, ParseCidr(inner).value)
  }

  lemma {:induction false} OctalAtMost(s: string)
    requires All(s, IsOctal) && All(s, IsDigit)
    ensures OctalValue(s) <= Value(s)
  {
    if s != "" { OctalAtMost(s[..|s| - 1]); }
  }

  /** What the shell reads in base eight covers all that base ten would: the check errs towards refusing. */
  lemma BaseTenIsNarrower(addr: nat, len: string, x: nat)
    requires IsPlain(len) && Value(len) <= 32 && InCidr(x, Cidr(addr, Value(len)))
    ensures ShellValue(len) <= 32 && InCidr(x, Cidr(addr, ShellValue(len)))
  {
    if LeadsWithZero(len) { OctalAtMost(len); }
    BlockOfBlock(x, ShellValue(len), Value(len));
    BlockOfBlock(addr, ShellValue(len), Value(len));
  }

  predicate Overlaps(a: string, b: string, odd: (string, string) -> bool) {
    Contains(a, b, odd) || Contains(b, a, odd)
  }

  ghost predicate Meet(a: Cidr, b: Cidr)
    requires a.len <= 32 && b.len <= 32
  {
    exists x: nat :: InCidr(x, a) && InCidr(x, b)
  }

  lemma OneBlock(x: nat)
    ensures Block(x, 0) == 0
  {
    WordIs();
  }

  lemma ContainsIsBlock(outer: Cidr, inner: Cidr)
    requires outer.len <= inner.len <= 32
    ensures CidrContains(outer, inner) <==> Block(outer.addr, outer.len) == Block(inner.addr, outer.len)
  {
    if outer.len == 0 {
      OneBlock(outer.addr);
      OneBlock(inner.addr);
    } else {
      MaskCompares(outer.addr, inner.addr, outer.len);
    }
  }

  lemma ContainsMeets(outer: Cidr, inner: Cidr)
    requires outer.len <= inner.len <= 32
    ensures CidrContains(outer, inner) <==> Meet(outer, inner)
  {
    ContainsIsBlock(outer, inner);
    if Block(outer.addr, outer.len) == Block(inner.addr, outer.len) { SharedAddress(outer, inner); }
    if Meet(outer, inner) {
      var x: nat :| InCidr(x, outer) && InCidr(x, inner);
      SharedBlock(outer, inner, x);
    }
  }

  lemma SharedAddress(outer: Cidr, inner: Cidr)
    requires outer.len <= 32 && inner.len <= 32 && Block(outer.addr, outer.len) == Block(inner.addr, outer.len)
    ensures Meet(outer, inner)
  {
    var x := inner.addr % WORD;
    LowIsLow(inner.addr, outer.len);
    LowIsLow(inner.addr, inner.len);
    assert InCidr(x, outer) && InCidr(x, inner);
  }

  lemma LowIsLow(x: nat, len: nat)
    requires len <= 32
    ensures Block(x % WORD, len) == Block(x, len)
  {
    assert x % WORD % WORD == x % WORD;
  }

  lemma SharedBlock(outer: Cidr, inner: Cidr, x: nat)
    requires outer.len <= inner.len <= 32 && InCidr(x, outer) && InCidr(x, inner)
    ensures Block(outer.addr, outer.len) == Block(inner.addr, outer.len)
  {
    BlockOfBlock(x, outer.len, inner.len);
    BlockOfBlock(inner.addr, outer.len, inner.len);
  }

  lemma MeetIsSymmetric(a: Cidr, b: Cidr)
    requires a.len <= 32 && b.len <= 32
    ensures Meet(a, b) <==> Meet(b, a)
  {
  }

  lemma CidrsOverlap(a: Cidr, b: Cidr)
    requires a.len <= 32 && b.len <= 32
    ensures CidrContains(a, b) || CidrContains(b, a) <==> Meet(a, b)
  {
    MeetIsSymmetric(a, b);
    if a.len <= b.len { ContainsMeets(a, b); }
    if b.len <= a.len { ContainsMeets(b, a); }
  }

  lemma ContainsIs(a: string, b: string, odd: (string, string) -> bool)
    requires !Odd(a) && !Odd(b)
    ensures Contains(a, b, odd) <==>
      ParseCidr(a) == None || ParseCidr(b) == None || CidrContains(ParseCidr(a).value, ParseCidr(b).value)
  {
  }

  /** Two well-formed entries overlap exactly when their ranges share an address;
      an entry that is not well-formed is taken to overlap everything. */
  lemma OverlapsExact(a: string, b: string, odd: (string, string) -> bool)
    requires !Odd(a) && !Odd(b)
    ensures Overlaps(a, b, odd) <==>
      ParseCidr(a) == None || ParseCidr(b) == None || Meet(ParseCidr(a).value, ParseCidr(b).value)
  {
    ContainsIs(a, b, odd);
    ContainsIs(b, a, odd);
    if ParseCidr(a) != None && ParseCidr(b) != None { CidrsOverlap(ParseCidr(a).value, ParseCidr(b).value); }
  }

  // ---- the protection check ----

  predicate IsV6(s: string) { ':' in s }

  const LOOPBACK := "127.0.0.0/8"
  const LOOPBACK6 := "::1"

  /** Whether one protected range forbids an entry. IPv6 is compared as text. */
  predicate Forbids(p: string, entry: string, odd: (string, string) -> bool) {
    p != "" && if IsV6(entry) || IsV6(p) then entry == p else Overlaps(entry, p, odd)
  }

  ghost predicate Allowed(entry: string, ranges: seq<string>, odd: (string, string) -> bool) {
    forall i :: 0 <= i < |ranges| ==> !Forbids(ranges[i], entry, odd)
  }

  function WithLoopback(ranges: seq<string>): seq<string> { ranges + [LOOPBACK, LOOPBACK6] }

  /** `ip_guard_check_protected`: whether the entry may be blocked. */
  method CheckProtected(entry: string, ranges: seq<string>, odd: (string, string) -> bool) returns (ok: bool)
    ensures ok <==> Allowed(entry, WithLoopback(ranges), odd)
  {
    var all := WithLoopback(ranges);
    for i := 0 to |all|
      invariant Allowed(entry, all[..i], odd)
    {
      var p := all[i];
      if p != "" {
        if IsV6(entry) || IsV6(p) {
          if entry == p { return false; }
        } else if Overlaps(entry, p, odd) {
          return false;
        }
      }
      assert !Forbids(p, entry, odd);
    }
    assert all[..|all|] == all;
    return true;
  }

  // ---- what one address meets ----

  /** Whether a well-formed entry covers the address. */
  predicate Covers(entry: string, x: nat) {
    !IsV6(entry) && ParseCidr(entry) != None && InCidr(x, ParseCidr(entry).value)
  }

  lemma AllowedCoversNothing(entry: string, p: string, odd: (string, string) -> bool, x: nat)
    requires !Forbids(p, entry, odd) && Covers(p, x) && !IsV6(p)
    ensures !Covers(entry, x)
  {
    if Covers(entry, x) {
      assert p != "" by { assert IndexOf("", '/') == 0; EmptyIsNoAddress(); }
      OverlapsExact(entry, p, odd);
    }
  }

  lemma EmptyIsNoAddress()
    ensures ParseCidr("") == None
  {
    assert Split("", '.') == [""];
  }

  // ---- reading the wanted state ----

  datatype SetName = AllowV4 | AllowV6 | BlockV4 | BlockV6

  /** The elements of the four sets, as text. */
  datatype Table = Table(allow4: set<string>, allow6: set<string>, block4: set<string>, block6: set<string>) {
    function At(n: SetName): set<string> {
      match n
      case AllowV4 => allow4
      case AllowV6 => allow6
      case BlockV4 => block4
      case BlockV6 => block6
    }

    function With(n: SetName, s: set<string>): Table {
      match n
      case AllowV4 => this.(allow4 := s)
      case AllowV6 => this.(allow6 := s)
      case BlockV4 => this.(block4 := s)
      case BlockV6 => this.(block6 := s)
    }
  }

  const EMPTY := Table({}, {}, {}, {})

  datatype Refusal = MalformedLine | UnknownAction | EmptyCidr | ProtectedRange

  datatype Wanted = Wanted(table: Table) | Refused(why: Refusal)

  datatype LineMeaning = Nothing | Entry(name: SetName, cidr: string) | Bad(why: Refusal)

  predicate NotBlank(c: char) { !IsBlank(c) }

  /** The words of a line; a carriage return belongs to a word. */
  function Words(s: string): seq<string>
    decreases |s|
  {
    var rest := s[Span(s, IsBlank)..];
    if rest == "" then []
    else
      var n := Span(rest, NotBlank);
      [rest[..n]] + Words(rest[n..])
  }

  function DropSpaces(s: string): string {
    if s == "" then "" else if s[0] == ' ' then DropSpaces(s[1..]) else [s[0]] + DropSpaces(s[1..])
  }

  predicate EndsWith(s: string, suffix: string) { |suffix| <= |s| && s[|s| - |suffix|..] == suffix }

  /** `ip_guard_normalize`: a single host is written without its length. */
  function Normalize(s: string): string {
    var cidr := DropSpaces(s);
    if EndsWith(cidr, "/32") then (if IsV6(cidr) then cidr else cidr[..|cidr| - 3])
    else if EndsWith(cidr, "/128") && IsV6(cidr) then cidr[..|cidr| - 4]
    else cidr
  }

  lemma {:induction false} SpacesDropped(s: string)
    ensures ' ' !in DropSpaces(s) && (' ' !in s ==> DropSpaces(s) == s)
  {
    if s != "" {
      SpacesDropped(s[1..]);
      HeadTail(s);
    }
  }

  /** The single-host length of an entry's family. */
  function Host(cidr: string): string { if IsV6(cidr) then "/128" else "/32" }

  function Strip(cidr: string, host: string): string {
    if EndsWith(cidr, host) then cidr[..|cidr| - |host|] else cidr
  }

  lemma NormalizeIs(s: string)
    ensures Normalize(s) == Strip(DropSpaces(s), Host(DropSpaces(s)))
  {
    OneEnding(DropSpaces(s), "/32", "/128");
  }

  lemma OneEnding(s: string, a: string, b: string)
    requires a == "/32" && b == "/128"
    ensures !(EndsWith(s, a) && EndsWith(s, b))
  {
    if EndsWith(s, a) { LastOf(s, a, 2); }
    if EndsWith(s, b) { LastOf(s, b, 3); }
  }

  lemma LastOf(s: string, suffix: string, k: nat)
    requires EndsWith(s, suffix) && k == |suffix| - 1
    ensures |s| > k && s[|s| - 1] == suffix[k]
  {
    assert s[|s| - |suffix|..][k] == s[|s| - 1];
  }

  /** Normalising is stable, so that an entry read back looks like the entry sent,
      except for one that gives its single-host length twice. */
  lemma NormalizeStable(s: string)
    ensures var cidr := DropSpaces(s);
      Normalize(Normalize(s)) == Normalize(s) <==> !EndsWith(cidr, Host(cidr) + Host(cidr))
  {
    var cidr := DropSpaces(s);
    var host, short := Host(cidr), Strip(cidr, Host(cidr));
    NormalizeIs(s);
    SpacesDropped(s);
    SpacesDropped(short);
    NormalizeIs(short);
    Stripped(cidr, host, short);
    assert Host(short) == host;
  }

  /** Such an entry, for any address of either family: the first pass leaves one length, the second none. */
  lemma NormalizedAgain(address: string)
    requires ' ' !in address
    ensures var host := Host(address);
      Normalize(address + host + host) == address + host && Normalize(address + host) == address
  {
    HostKept(address);
    HostKept(address + Host(address));
    LengthDropped(address + Host(address));
    LengthDropped(address);
  }

  lemma HostKept(start: string)
    ensures Host(start + Host(start)) == Host(start) && ' ' !in Host(start)
  {
  }

  lemma LengthDropped(start: string)
    requires ' ' !in start
    ensures Normalize(start + Host(start)) == start
  {
    var host := Host(start);
    HostKept(start);
    SpacesDropped(start + host);
    NormalizeIs(start + host);
    StripsEnd(start, host);
  }

  lemma StripsEnd(start: string, host: string)
    ensures Strip(start + host, host) == start
  {
    assert (start + host)[|start|..] == host && (start + host)[..|start|] == start;
  }

  lemma Stripped(cidr: string, host: string, short: string)
    requires host != "" && ':' !in host && short == Strip(cidr, host)
    ensures Strip(short, host) == short <==> !EndsWith(cidr, host + host)
    ensures IsV6(short) == IsV6(cidr)
  {
    EndsTwice(cidr, host, short);
    if EndsWith(cidr, host) { assert cidr == short + host; }
  }

  lemma EndsTwice(cidr: string, host: string, short: string)
    requires host != "" && short == Strip(cidr, host)
    ensures EndsWith(cidr, host + host) <==> EndsWith(cidr, host) && EndsWith(short, host)
  {
    if EndsWith(cidr, host + host) {
      assert cidr[|cidr| - |host|..] == cidr[|cidr| - |host + host|..][|host|..];
      assert short[|short| - |host|..] == cidr[|cidr| - |host + host|..][..|host|];
    }
    if EndsWith(cidr, host) {
      assert cidr == short + host;
      if EndsWith(short, host) { Joined(cidr, host, short); }
    }
  }

  lemma Joined(cidr: string, host: string, short: string)
    requires cidr == short + host && EndsWith(short, host)
    ensures EndsWith(cidr, host + host)
  {
    assert cidr == short[..|short| - |host|] + (host + host);
  }

  function SetFor(block: bool, cidr: string): SetName {
    if block then (if IsV6(cidr) then BlockV6 else BlockV4) else if IsV6(cidr) then AllowV6 else AllowV4
  }

  /** What one line asks for. */
  ghost function Meaning(line: string, ranges: seq<string>, odd: (string, string) -> bool): LineMeaning {
    var words := Words(line[..IndexOf(line, '#')]);
    if words == [] then Nothing
    else if |words| != 2 then Bad(MalformedLine)
    else EntryMeaning(words[0], Normalize(words[1]), ranges, odd)
  }

  ghost function EntryMeaning(action: string, cidr: string, ranges: seq<string>,
                              odd: (string, string) -> bool): LineMeaning
  {
    if action != "block" && action != "allow" then Bad(UnknownAction)
    else if cidr == "" then Bad(EmptyCidr)
    else if action == "block" && !Allowed(cidr, WithLoopback(ranges), odd) then Bad(ProtectedRange)
    else Entry(SetFor(action == "block", cidr), cidr)
  }

  ghost function Absorb(w: Wanted, m: LineMeaning): Wanted {
    if w.Refused? then w
    else match m
      case Nothing => w
      case Bad(why) => Refused(why)
      case Entry(name, cidr) => Wanted(w.table.With(name, w.table.At(name) + {cidr}))
  }

  ghost function Read(lines: seq<string>, ranges: seq<string>, odd: (string, string) -> bool): Wanted {
    if lines == [] then Wanted(EMPTY)
    else Absorb(Read(lines[..|lines| - 1], ranges, odd), Meaning(lines[|lines| - 1], ranges, odd))
  }

  method ReadLine(line: string, ranges: seq<string>, odd: (string, string) -> bool) returns (m: LineMeaning)
    ensures m == Meaning(line, ranges, odd)
  {
    var words := Words(line[..IndexOf(line, '#')]);
    if words == [] { return Nothing; }
    if |words| != 2 { return Bad(MalformedLine); }
    m := ReadEntry(words[0], Normalize(words[1]), ranges, odd);
  }

  method ReadEntry(action: string, cidr: string, ranges: seq<string>, odd: (string, string) -> bool)
    returns (m: LineMeaning)
    ensures m == EntryMeaning(action, cidr, ranges, odd)
  {
    if action != "block" && action != "allow" { return Bad(UnknownAction); }
    if cidr == "" { return Bad(EmptyCidr); }
    if action == "block" {
      var ok := CheckProtected(cidr, ranges, odd);
      if !ok { return Bad(ProtectedRange); }
    }
    return Entry(SetFor(action == "block", cidr), cidr);
  }

  method ReadWanted(input: string, ranges: seq<string>, odd: (string, string) -> bool) returns (w: Wanted)
    ensures w == Read(Lines(input), ranges, odd)
  {
    var lines := Lines(input);
    var want: Table := EMPTY;
    for i := 0 to |lines|
      invariant Read(lines[..i], ranges, odd) == Wanted(want)
    {
      ReadMore(lines, i, ranges, odd);
      var m := ReadLine(lines[i], ranges, odd);
      match m
      case Nothing =>
      case Bad(why) =>
        ReadStays(lines, i + 1, ranges, odd);
        return Refused(why);
      case Entry(name, cidr) =>
        want := want.With(name, want.At(name) + {cidr});
    }
    assert lines[..|lines|] == lines;
    return Wanted(want);
  }

  lemma ReadMore(lines: seq<string>, i: nat, ranges: seq<string>, odd: (string, string) -> bool)
    requires i < |lines|
    ensures Read(lines[..i + 1], ranges, odd) == Absorb(Read(lines[..i], ranges, odd), Meaning(lines[i], ranges, odd))
  {
    assert lines[..i + 1][..i] == lines[..i];
  }

  lemma {:induction false} ReadStays(lines: seq<string>, i: nat, ranges: seq<string>, odd: (string, string) -> bool)
    requires i <= |lines| && Read(lines[..i], ranges, odd).Refused?
    ensures Read(lines, ranges, odd) == Read(lines[..i], ranges, odd)
    decreases |lines| - i
  {
    if i < |lines| {
      ReadMore(lines, i, ranges, odd);
      ReadStays(lines, i + 1, ranges, odd);
    } else {
      assert lines[..i] == lines;
    }
  }

  // ---- reconciling ----

  datatype Command = Add(name: SetName, elems: set<string>) | Delete(name: SetName, elems: set<string>)

  function Exec(t: Table, c: Command): Table {
    match c
    case Add(n, s) => t.With(n, t.At(n) + s)
    case Delete(n, s) => t.With(n, t.At(n) - s)
  }

  function ExecAll(t: Table, commands: seq<Command>): Table {
    if commands == [] then t else Exec(ExecAll(t, commands[..|commands| - 1]), commands[|commands| - 1])
  }

  const NAMES: seq<SetName> := [AllowV4, AllowV6, BlockV4, BlockV6]

  /** New elements first, then the ones no longer wanted. */
  function PlanFor(name: SetName, current: set<string>, desired: set<string>): seq<Command> {
    (if desired - current == {} then [] else [Add(name, desired - current)]) +
    (if current - desired == {} then [] else [Delete(name, current - desired)])
  }

  function PlanOf(t: Table, want: Table): SetName -> seq<Command> { n => PlanFor(n, t.At(n), want.At(n)) }

  function Plan(t: Table, want: Table): seq<Command> { FlatMap(NAMES, PlanOf(t, want)) }

  datatype Counts = Counts(added: nat, removed: nat, same: nat)

  function CountMore(c: Counts, current: set<string>, desired: set<string>): Counts {
    Counts(c.added + |desired - current|, c.removed + |current - desired|, c.same + |desired * current|)
  }

  function CountAll(t: Table, want: Table, names: seq<SetName>): Counts {
    if names == [] then Counts(0, 0, 0)
    else
      var n := names[|names| - 1];
      CountMore(CountAll(t, want, names[..|names| - 1]), t.At(n), want.At(n))
  }

  datatype Reply = Rejected(why: Refusal) | Aborted | Applied(counts: Counts)

  /** The first `working` commands of a plan take effect. */
  function Executed(t: Table, want: Table, working: nat): Table {
    var plan := Plan(t, want);
    if working < |plan| then ExecAll(t, plan[..working]) else ExecAll(t, plan)
  }

  class Guard {
    var sets: Table

    constructor ()
      ensures sets == EMPTY
    {
      sets := EMPTY;
    }

    /** One set. `left` is how many more commands nft will carry out. */
    method Reconcile(name: SetName, desired: set<string>, left: nat) returns (ok: bool, more: nat)
      modifies this
      ensures var plan := PlanFor(name, old(sets).At(name), desired);
        && (ok <==> |plan| <= left)
        && (ok ==> more == left - |plan| && sets == ExecAll(old(sets), plan))
        && (!ok ==> left < |plan| && sets == ExecAll(old(sets), plan[..left]))
    {
      var current := sets.At(name);
      var toAdd, toDel := desired - current, current - desired;
      more := left;
      if toAdd != {} {
        if more == 0 { return false, 0; }
        sets := Exec(sets, Add(name, toAdd));
        more := more - 1;
      }
      if toDel != {} {
        PlanPrefix(name, current, desired, old(sets));
        if more == 0 { return false, 0; }
        sets := Exec(sets, Delete(name, toDel));
        more := more - 1;
      }
      PlanWhole(name, current, desired, old(sets));
      ok := true;
    }

    /** `ip_guard_apply`. `working` is how many nft commands succeed before one fails. */
    method Apply(input: string, ranges: seq<string>, odd: (string, string) -> bool, working: nat) returns (reply: Reply)
      modifies this
      ensures reply.Applied? <==> Read(Lines(input), ranges, odd).Wanted? && reply != Aborted
      ensures reply.Applied? ==> sets == Read(Lines(input), ranges, odd).table
      ensures reply.Rejected? ==> sets == old(sets)
      ensures match Read(Lines(input), ranges, odd)
        case Refused(why) => sets == old(sets) && reply == Rejected(why)
        case Wanted(want) =>
          && sets == Executed(old(sets), want, working)
          && reply == if working < |Plan(old(sets), want)| then Aborted else Applied(CountAll(old(sets), want, NAMES))
    {
      var w := ReadWanted(input, ranges, odd);
      if w.Refused? { return Rejected(w.why); }
      ReachesWanted(sets, w.table);
      reply := ReconcileAll(w.table, working);
    }

    /** The i-th set of a pass that began with the table `t`. */
    method ReconcileNext(want: Table, i: nat, left: nat, counts: Counts, ghost t: Table)
      returns (ok: bool, more: nat, counted: Counts)
      requires i < |NAMES| && sets == ExecAll(t, PlanBefore(t, want, i)) && counts == CountAll(t, want, NAMES[..i])
      modifies this
      ensures ok ==>
        && sets == ExecAll(t, PlanBefore(t, want, i + 1)) && counted == CountAll(t, want, NAMES[..i + 1])
        && |PlanBefore(t, want, i + 1)| + more == |PlanBefore(t, want, i)| + left
      ensures !ok ==> var working := |PlanBefore(t, want, i)| + left;
        working < |Plan(t, want)| && sets == Executed(t, want, working)
    {
      var n := NAMES[i];
      PlanGrows(t, want, i);
      var current := sets.At(n);
      ok, more := Reconcile(n, want.At(n), left);
      counted := CountMore(counts, current, want.At(n));
      if !ok { StopsAt(t, want, i, left); }
    }

    method ReconcileAll(want: Table, working: nat) returns (reply: Reply)
      modifies this
      ensures sets == Executed(old(sets), want, working)
      ensures reply == if working < |Plan(old(sets), want)| then Aborted else Applied(CountAll(old(sets), want, NAMES))
    {
      var left, counts := working, Counts(0, 0, 0);
      ghost var t := sets;
      NonePlanned(t, want);
      for i := 0 to |NAMES|
        invariant |PlanBefore(t, want, i)| + left == working
        invariant sets == ExecAll(t, PlanBefore(t, want, i))
        invariant counts == CountAll(t, want, NAMES[..i])
      {
        var ok;
        ok, left, counts := ReconcileNext(want, i, left, counts, t);
        if !ok { return Aborted; }
      }
      AllPlanned(t, want);
      return Applied(counts);
    }
  }

  /** The commands for the first `i` sets. */
  function PlanBefore(t: Table, want: Table, i: nat): seq<Command>
    requires i <= |NAMES|
  {
    FlatMap(NAMES[..i], PlanOf(t, want))
  }

  lemma PlanGrows(t: Table, want: Table, i: nat)
    requires i < |NAMES|
    ensures var n, u := NAMES[i], ExecAll(t, PlanBefore(t, want, i));
      var plan := PlanFor(n, t.At(n), want.At(n));
      && u.At(n) == t.At(n)
      && |PlanBefore(t, want, i + 1)| == |PlanBefore(t, want, i)| + |plan|
      && ExecAll(t, PlanBefore(t, want, i + 1)) == ExecAll(u, plan)
      && CountAll(t, want, NAMES[..i + 1]) == CountMore(CountAll(t, want, NAMES[..i]), t.At(n), want.At(n))
  {
    var plan := PlanOf(t, want);
    FlatMapSnoc(NAMES, i, plan);
    OthersUntouched(t, want, i);
    ExecAppend(t, PlanBefore(t, want, i), plan(NAMES[i]));
    assert NAMES[..i + 1][..i] == NAMES[..i];
  }

  /** nft gives up inside the commands for the i-th set. */
  lemma StopsAt(t: Table, want: Table, i: nat, left: nat)
    requires i < |NAMES| && left < |PlanFor(NAMES[i], t.At(NAMES[i]), want.At(NAMES[i]))|
    ensures var working := |PlanBefore(t, want, i)| + left;
      && working < |Plan(t, want)|
      && Executed(t, want, working) ==
           ExecAll(ExecAll(t, PlanBefore(t, want, i)), PlanFor(NAMES[i], t.At(NAMES[i]), want.At(NAMES[i]))[..left])
  {
    PlanCut(t, want, i, left);
    ExecutedCut(t, want, |PlanBefore(t, want, i)| + left, PlanBefore(t, want, i), PlanOf(t, want)(NAMES[i])[..left]);
  }

  lemma ExecutedCut(t: Table, want: Table, working: nat, before: seq<Command>, part: seq<Command>)
    requires working < |Plan(t, want)| && Plan(t, want)[..working] == before + part
    ensures Executed(t, want, working) == ExecAll(ExecAll(t, before), part)
  {
    ExecAppend(t, before, part);
  }

  lemma NonePlanned(t: Table, want: Table)
    ensures PlanBefore(t, want, 0) == [] && ExecAll(t, PlanBefore(t, want, 0)) == t
    ensures CountAll(t, want, NAMES[..0]) == Counts(0, 0, 0)
  {
  }

  lemma AllPlanned(t: Table, want: Table)
    ensures PlanBefore(t, want, |NAMES|) == Plan(t, want) && NAMES[..|NAMES|] == NAMES
  {
    assert NAMES[..|NAMES|] == NAMES;
  }

  lemma ExecOne(t: Table, c: Command)
    ensures ExecAll(t, [c]) == Exec(t, c)
  {
    assert [c][..0] == [];
  }

  lemma ExecTwo(t: Table, c: Command, d: Command)
    ensures ExecAll(t, [c] + [d]) == Exec(Exec(t, c), d)
  {
    assert ([c] + [d])[..1] == [c];
    ExecOne(t, c);
  }

  lemma PlanPrefix(name: SetName, current: set<string>, desired: set<string>, t: Table)
    ensures var add := if desired - current == {} then [] else [Add(name, desired - current)];
      var plan := PlanFor(name, current, desired);
      add <= plan && plan[..|add|] == add && (current - desired != {} ==> |plan| == |add| + 1)
    ensures desired - current != {} ==>
      ExecAll(t, [Add(name, desired - current)]) == Exec(t, Add(name, desired - current))
  {
    if desired - current != {} { ExecOne(t, Add(name, desired - current)); }
  }

  lemma PlanWhole(name: SetName, current: set<string>, desired: set<string>, t: Table)
    ensures var add, del := Add(name, desired - current), Delete(name, current - desired);
      ExecAll(t, PlanFor(name, current, desired)) ==
        if add.elems == {} then (if del.elems == {} then t else Exec(t, del))
        else if del.elems == {} then Exec(t, add) else Exec(Exec(t, add), del)
  {
    var add, del := Add(name, desired - current), Delete(name, current - desired);
    ExecOne(t, add);
    ExecOne(t, del);
    ExecTwo(t, add, del);
    assert [] + [del] == [del] && [add] + [] == [add];
  }

  lemma {:induction false} ExecAppend(t: Table, a: seq<Command>, b: seq<Command>)
    ensures ExecAll(t, a + b) == ExecAll(ExecAll(t, a), b)
  {
    if b == [] {
      assert a + b == a;
    } else {
      ExecAppend(t, a, b[..|b| - 1]);
      assert (a + b)[..|a + b| - 1] == a + b[..|b| - 1];
    }
  }

  lemma SetSteps(c: set<string>, d: set<string>)
    ensures c + (d - c) - (c - d) == d
    ensures d - c == {} ==> c - (c - d) == d
    ensures c - d == {} ==> c + (d - c) == d
    ensures d - c == {} && c - d == {} ==> c == d
  {
  }

  /** The commands for one set end with that set as wanted. */
  lemma PlanReaches(name: SetName, t: Table, desired: set<string>)
    ensures ExecAll(t, PlanFor(name, t.At(name), desired)) == t.With(name, desired)
  {
    PlanWhole(name, t.At(name), desired, t);
    SetSteps(t.At(name), desired);
  }

  /** The first `i` sets are as wanted, the others as they were. */
  ghost predicate Half(t: Table, want: Table, u: Table, i: nat) {
    forall k :: 0 <= k < |NAMES| ==> u.At(NAMES[k]) == if k < i then want.At(NAMES[k]) else t.At(NAMES[k])
  }

  lemma HalfMore(t: Table, want: Table, u: Table, i: nat)
    requires i < |NAMES| && Half(t, want, u, i)
    ensures Half(t, want, u.With(NAMES[i], want.At(NAMES[i])), i + 1)
  {
  }

  lemma {:induction false} Halfway(t: Table, want: Table, i: nat)
    requires i <= |NAMES|
    ensures Half(t, want, ExecAll(t, FlatMap(NAMES[..i], PlanOf(t, want))), i)
  {
    if i > 0 {
      var n, plan := NAMES[i - 1], PlanOf(t, want);
      var before := FlatMap(NAMES[..i - 1], plan);
      Halfway(t, want, i - 1);
      FlatMapSnoc(NAMES, i - 1, plan);
      ExecAppend(t, before, plan(n));
      PlanReaches(n, ExecAll(t, before), want.At(n));
      HalfMore(t, want, ExecAll(t, before), i - 1);
    }
  }

  lemma OthersUntouched(t: Table, want: Table, i: nat)
    requires i < |NAMES|
    ensures ExecAll(t, FlatMap(NAMES[..i], PlanOf(t, want))).At(NAMES[i]) == t.At(NAMES[i])
  {
    Halfway(t, want, i);
  }

  lemma PlanCut(t: Table, want: Table, i: nat, left: nat)
    requires i < |NAMES|
    requires var plan := PlanOf(t, want); left < |plan(NAMES[i])|
    ensures var plan := PlanOf(t, want);
      var before := FlatMap(NAMES[..i], plan);
      |before| + left < |Plan(t, want)| && Plan(t, want)[..|before| + left] == before + plan(NAMES[i])[..left]
  {
    var plan := PlanOf(t, want);
    var before, rest := FlatMap(NAMES[..i], plan), FlatMap(NAMES[i + 1..], plan);
    assert NAMES == NAMES[..i + 1] + NAMES[i + 1..];
    FlatMapConcat(NAMES[..i + 1], NAMES[i + 1..], plan);
    FlatMapSnoc(NAMES, i, plan);
    Cuts(before, plan(NAMES[i]), rest, left);
  }

  lemma Cuts<T>(a: seq<T>, b: seq<T>, c: seq<T>, k: nat)
    requires k < |b|
    ensures |a| + k < |a + b + c| && (a + b + c)[..|a| + k] == a + b[..k]
  {
  }

  // ---- results ----

  /** A completed apply leaves each set exactly as wanted, whatever it held before. */
  lemma ReachesWanted(t: Table, want: Table)
    ensures ExecAll(t, Plan(t, want)) == want
  {
    Halfway(t, want, |NAMES|);
    assert NAMES[..|NAMES|] == NAMES;
    var u := ExecAll(t, Plan(t, want));
    forall n: SetName ensures u.At(n) == want.At(n) {
      assert n == NAMES[0] || n == NAMES[1] || n == NAMES[2] || n == NAMES[3];
    }
  }

  /** Applying the state that is already there issues no command at all. */
  lemma AgainIsIdle(want: Table)
    ensures Plan(want, want) == []
    ensures CountAll(want, want, NAMES).added == 0 && CountAll(want, want, NAMES).removed == 0
  {
    FlatMapNothing(NAMES, PlanOf(want, want));
    NothingCounted(want, |NAMES|);
    assert NAMES[..|NAMES|] == NAMES;
  }

  lemma {:induction false} NothingCounted(want: Table, i: nat)
    requires i <= |NAMES|
    ensures CountAll(want, want, NAMES[..i]).added == 0 && CountAll(want, want, NAMES[..i]).removed == 0
  {
    if i > 0 {
      NothingCounted(want, i - 1);
      assert NAMES[..i][..i - 1] == NAMES[..i - 1];
      assert want.At(NAMES[i - 1]) - want.At(NAMES[i - 1]) == {};
    }
  }

  /** An element wanted before and after stays, and nothing else comes in. */
  ghost predicate Between(t: Table, want: Table, u: Table) {
    forall n: SetName :: t.At(n) * want.At(n) <= u.At(n) <= t.At(n) + want.At(n)
  }

  ghost predicate Fits(want: Table, c: Command) {
    match c
    case Add(n, s) => s <= want.At(n)
    case Delete(n, s) => s !! want.At(n)
  }

  lemma FitsKeeps(t: Table, want: Table, u: Table, c: Command)
    requires Between(t, want, u) && Fits(want, c)
    ensures Between(t, want, Exec(u, c))
  {
  }

  lemma {:induction false} AllFit(t: Table, want: Table, commands: seq<Command>)
    requires forall c :: c in commands ==> Fits(want, c)
    ensures Between(t, want, ExecAll(t, commands))
  {
    if commands != [] {
      AllFit(t, want, commands[..|commands| - 1]);
      FitsKeeps(t, want, ExecAll(t, commands[..|commands| - 1]), commands[|commands| - 1]);
    }
  }

  lemma {:induction false} PlanFits(t: Table, want: Table, names: seq<SetName>)
    ensures forall c :: c in FlatMap(names, PlanOf(t, want)) ==> Fits(want, c)
  {
    if names != [] {
      PlanFits(t, want, names[1..]);
      assert forall c :: c in PlanFor(names[0], t.At(names[0]), want.At(names[0])) ==> Fits(want, c);
    }
  }

  /** However far nft gets, an element that was there and is still wanted never leaves its set. */
  lemma NeverMissing(t: Table, want: Table, working: nat)
    ensures Between(t, want, Executed(t, want, working))
  {
    var plan := Plan(t, want);
    PlanFits(t, want, NAMES);
    AllFit(t, want, if working < |plan| then plan[..working] else plan);
  }

  // ---- whole runs ----

  ghost predicate Checked(t: Table, ranges: seq<string>, odd: (string, string) -> bool) {
    forall e :: e in t.block4 ==> !IsV6(e) && Allowed(e, WithLoopback(ranges), odd)
  }

  lemma {:induction false} ReadChecks(lines: seq<string>, ranges: seq<string>, odd: (string, string) -> bool)
    ensures var w := Read(lines, ranges, odd); w.Wanted? ==> Checked(w.table, ranges, odd)
  {
    if lines != [] {
      ReadChecks(lines[..|lines| - 1], ranges, odd);
      EntryChecks(Read(lines[..|lines| - 1], ranges, odd), lines[|lines| - 1], ranges, odd);
    }
  }

  lemma EntryChecks(w: Wanted, line: string, ranges: seq<string>, odd: (string, string) -> bool)
    requires w.Wanted? ==> Checked(w.table, ranges, odd)
    ensures var v := Absorb(w, Meaning(line, ranges, odd)); v.Wanted? ==> Checked(v.table, ranges, odd)
  {
  }

  /** Some entry of the block set covers the address. */
  ghost predicate Blocks(t: Table, x: nat) { exists e :: e in t.block4 && Covers(e, x) }

  /** Some range of the list, or loopback, covers the address. */
  ghost predicate Protects(ranges: seq<string>, x: nat) {
    exists p :: p in WithLoopback(ranges) && Covers(p, x)
  }

  /** An accepted input asks for no block of an address that its list protects. */
  lemma AcceptedBlocksNothing(lines: seq<string>, ranges: seq<string>, odd: (string, string) -> bool, x: nat)
    requires Read(lines, ranges, odd).Wanted? && Protects(ranges, x)
    ensures !Blocks(Read(lines, ranges, odd).table, x)
  {
    ReadChecks(lines, ranges, odd);
    var want, all := Read(lines, ranges, odd).table, WithLoopback(ranges);
    var p :| p in all && Covers(p, x);
    var i :| 0 <= i < |all| && all[i] == p;
    forall e | e in want.block4 ensures !Covers(e, x) {
      assert !Forbids(all[i], e, odd);
      AllowedCoversNothing(e, p, odd, x);
    }
  }

  /** One call of `ipctl apply`: its input, its own protected list, and how many commands nft carries out. */
  datatype Request = Request(input: string, ranges: seq<string>, working: nat)

  ghost function Wants(r: Request, odd: (string, string) -> bool): Wanted { Read(Lines(r.input), r.ranges, odd) }

  /** Every command of the request is carried out. */
  ghost predicate Completes(t: Table, r: Request, odd: (string, string) -> bool) {
    Wants(r, odd).Wanted? && r.working >= |Plan(t, Wants(r, odd).table)|
  }

  /** The sets after one request. */
  ghost function Serve(t: Table, r: Request, odd: (string, string) -> bool): Table {
    match Wants(r, odd)
    case Refused(_) => t
    case Wanted(want) => Executed(t, want, r.working)
  }

  /** Whatever the sets held, one apply whose list protects an address never
      newly blocks it, and a completed one leaves it not blocked. */
  lemma ApplyProtects(t: Table, r: Request, odd: (string, string) -> bool, x: nat)
    requires Protects(r.ranges, x)
    ensures Blocks(Serve(t, r, odd), x) ==> Blocks(t, x)
    ensures Completes(t, r, odd) ==> !Blocks(Serve(t, r, odd), x)
  {
    var w := Wants(r, odd);
    if w.Wanted? {
      AcceptedBlocksNothing(Lines(r.input), r.ranges, odd, x);
      NeverMissing(t, w.table, r.working);
      ReachesWanted(t, w.table);
      NothingNew(t, w.table, Serve(t, r, odd), x);
    }
  }

  lemma NothingNew(t: Table, want: Table, u: Table, x: nat)
    requires Between(t, want, u) && !Blocks(want, x)
    ensures Blocks(u, x) ==> Blocks(t, x)
  {
    if Blocks(u, x) {
      var e :| e in u.block4 && Covers(e, x);
      assert u.At(BlockV4) <= t.At(BlockV4) + want.At(BlockV4);
    }
  }

  // ---- runs of requests ----

  ghost function RunOf<S, R>(step: (S, R) -> S, s: S, requests: seq<R>): S {
    if requests == [] then s
    else step(RunOf(step, s, requests[..|requests| - 1]), requests[|requests| - 1])
  }

  lemma RunMore<S, R>(step: (S, R) -> S, s: S, requests: seq<R>, k: nat)
    requires k < |requests|
    ensures RunOf(step, s, requests[..k + 1]) == step(RunOf(step, s, requests[..k]), requests[k])
  {
    assert requests[..k + 1][..k] == requests[..k];
  }

  /** A property no step brings about stays away once it is away. */
  lemma {:induction false} StaysAway<S(!new), R(!new)>(step: (S, R) -> S, bad: S -> bool, s: S, requests: seq<R>,
                                                       from: nat, until: nat)
    requires from <= until <= |requests| && !bad(RunOf(step, s, requests[..from]))
    requires forall k, t: S :: 0 <= k < |requests| && bad(step(t, requests[k])) ==> bad(t)
    ensures !bad(RunOf(step, s, requests[..until]))
    decreases until
  {
    if from < until {
      StaysAway(step, bad, s, requests, from, until - 1);
      RunMore(step, s, requests, until - 1);
    }
  }

  ghost function Applies(odd: (string, string) -> bool): (Table, Request) -> Table { (t, r) => Serve(t, r, odd) }

  ghost function Blocked(x: nat): Table -> bool { t => Blocks(t, x) }

  ghost function Run(t: Table, requests: seq<Request>, odd: (string, string) -> bool): Table {
    RunOf(Applies(odd), t, requests)
  }

  ghost predicate AllProtect(requests: seq<Request>, x: nat) {
    forall i :: 0 <= i < |requests| ==> Protects(requests[i].ranges, x)
  }

  /** The i-th request finds the sets as the ones before it left them, and completes. */
  ghost predicate CompletesAt(t: Table, requests: seq<Request>, odd: (string, string) -> bool, i: nat)
    requires i < |requests|
  {
    Completes(Run(t, requests[..i], odd), requests[i], odd)
  }

  lemma StepsProtect(requests: seq<Request>, odd: (string, string) -> bool, x: nat)
    requires AllProtect(requests, x)
    ensures forall k, t: Table :: 0 <= k < |requests| && Blocked(x)(Applies(odd)(t, requests[k])) ==> Blocked(x)(t)
  {
    forall k, t: Table | 0 <= k < |requests| && Blocked(x)(Applies(odd)(t, requests[k])) ensures Blocked(x)(t) {
      ApplyProtects(t, requests[k], odd, x);
    }
  }

  lemma BlockedMeans(t: Table, requests: seq<Request>, odd: (string, string) -> bool, x: nat)
    ensures Blocks(Run(t, requests, odd), x) == Blocked(x)(RunOf(Applies(odd), t, requests))
  {
  }

  /** Through any sequence of applies, each with its own protected list, refused,
      aborted part way or completed, and from any sets: an address that every list
      protects is not blocked unless it was to begin with. */
  lemma ProtectedIsNeverBlocked(t: Table, requests: seq<Request>, odd: (string, string) -> bool, x: nat)
    requires AllProtect(requests, x)
    ensures Blocks(Run(t, requests, odd), x) ==> Blocks(t, x)
  {
    StepsProtect(requests, odd, x);
    assert requests[..|requests|] == requests && requests[..0] == [];
    if !Blocked(x)(t) { StaysAway(Applies(odd), Blocked(x), t, requests, 0, |requests|); }
  }

  /** And once one of them has completed it is not blocked at all, whatever the sets held. */
  lemma CompletedApplyUnblocks(t: Table, requests: seq<Request>, odd: (string, string) -> bool, x: nat, i: nat)
    requires AllProtect(requests, x) && i < |requests| && CompletesAt(t, requests, odd, i)
    ensures !Blocks(Run(t, requests, odd), x)
  {
    CompletedHere(t, requests, odd, x, i);
    StepsProtect(requests, odd, x);
    StaysAway(Applies(odd), Blocked(x), t, requests, i + 1, |requests|);
    assert requests[..|requests|] == requests;
    BlockedMeans(t, requests, odd, x);
  }

  lemma CompletedHere(t: Table, requests: seq<Request>, odd: (string, string) -> bool, x: nat, i: nat)
    requires i < |requests| && Protects(requests[i].ranges, x) && CompletesAt(t, requests, odd, i)
    ensures !Blocked(x)(RunOf(Applies(odd), t, requests[..i + 1]))
  {
    RunMore(Applies(odd), t, requests, i);
    ApplyProtects(Run(t, requests[..i], odd), requests[i], odd, x);
  }

  lemma LoopbackProtected(ranges: seq<string>, x: nat)
    requires 0x7F00_0000 <= x < 0x8000_0000
    ensures Protects(ranges, x)
  {
    LoopbackCovers(x);
    var all := WithLoopback(ranges);
    assert all[|ranges|] == LOOPBACK;
  }

  lemma FirstOctet(x: nat)
    requires 0x7F00_0000 <= x < 0x8000_0000
    ensures Block(x, 8) == 127
  {
    assert Pow2(3) == 8;
    Squares(3, 8);
    Squares(6, 64);
    Squares(12, 4096);
    OctetOf(x, Pow2(24));
  }

  lemma OctetOf(x: nat, p: nat)
    requires 0x7F00_0000 <= x < 0x8000_0000 && p == 0x100_0000
    ensures x % WORD / p == 127
  {
  }

  /** The range that no caller can forget: 127.0.0.0 to 127.255.255.255. */
  lemma LoopbackCovers(x: nat)
    requires 0x7F00_0000 <= x < 0x8000_0000
    ensures Covers(LOOPBACK, x)
  {
    FirstOctet(x);
    FirstOctet(0x7F00_0000);
    CoversBy(LOOPBACK, Cidr(0x7F00_0000, 8), x);
  }

  lemma CoversBy(entry: string, c: Cidr, x: nat)
    requires entry == LOOPBACK && c == Cidr(0x7F00_0000, 8) && InCidr(x, c)
    ensures Covers(entry, x)
  {
    LoopbackParses(entry);
  }

  lemma SlashParts(s: string, addr: string, len: string)
    requires s == addr + "/" + len && '/' !in addr && '/' !in len
    ensures AddrPart(s) == addr && LenPart(s) == len
  {
    assert s[..|addr|] == addr && s[|addr| + 1..] == len;
    IndexOfIs(s, '/', |addr|);
    LastIndexOfIs(s, '/', |addr|);
  }

  lemma LoopbackParses(s: string)
    requires s == LOOPBACK
    ensures !IsV6(s) && ParseCidr(s) == Some(Cidr(0x7F00_0000, 8))
  {
    LoopbackText(s, "127.0.0.0", "8");
    LoopbackFrom(s, "127.0.0.0", "8");
  }

  lemma LoopbackText(s: string, addr: string, len: string)
    requires s == LOOPBACK && addr == "127.0.0.0" && len == "8"
    ensures s == addr + "/" + len && !IsV6(s)
  {
  }

  lemma LoopbackFrom(s: string, addr: string, len: string)
    requires s == addr + "/" + len && addr == "127.0.0.0" && len == "8"
    ensures ParseCidr(s) == Some(Cidr(0x7F00_0000, 8))
  {
    SlashParts(s, addr, len);
    DottedParts(addr, ["127", "0", "0", "0"]);
    DottedIs(addr, ["127", "0", "0", "0"]);
    LengthIs(len);
    ParsesFrom(s, addr, len);
  }

  lemma ParsesFrom(s: string, addr: string, len: string)
    requires AddrPart(s) == addr && LenPart(s) == len
    requires IsV4Addr(addr) && ToInt(addr) == 0x7F00_0000 && IsPlain(len) && ShellValue(len) == 8
    ensures ParseCidr(s) == Some(Cidr(0x7F00_0000, 8))
  {
  }

  lemma LengthIs(s: string)
    requires s == "8"
    ensures IsPlain(s) && ShellValue(s) == 8
  {
    assert Digits(8) == s;
    ValueDigits(8);
  }

  lemma DottedParts(s: string, parts: seq<string>)
    requires s == "127.0.0.0" && parts == ["127", "0", "0", "0"]
    ensures Split(s, '.') == parts
  {
    JoinFour(parts, ".");
    assert "127" + "." + ("0" + "." + ("0" + "." + "0")) == s;
    SplitJoin(parts, '.');
  }

  lemma JoinFour(p: seq<string>, sep: string)
    requires |p| == 4
    ensures Join(p, sep) == p[0] + sep + (p[1] + sep + (p[2] + sep + p[3]))
  {
    JoinMore(p, sep);
    JoinMore(p[1..], sep);
    JoinMore(p[1..][1..], sep);
  }

  lemma JoinMore(p: seq<string>, sep: string)
    requires |p| > 1
    ensures Join(p, sep) == p[0] + sep + Join(p[1..], sep)
  {
  }

  lemma DottedIs(s: string, parts: seq<string>)
    requires Split(s, '.') == parts == ["127", "0", "0", "0"]
    ensures IsV4Addr(s) && ToInt(s) == 0x7F00_0000
  {
    ValueDigits(0);
    assert Digits(0) == "0";
    ValueDigits(127);
    assert Digits(12) == "12";
    assert Digits(127) == "127";
  }

  /** No caller can forget loopback: whatever the lists, no address from 127.0.0.0
      to 127.255.255.255 is blocked unless it was to begin with. */
  lemma LoopbackIsNeverBlocked(t: Table, requests: seq<Request>, odd: (string, string) -> bool, x: nat)
    requires 0x7F00_0000 <= x < 0x8000_0000
    ensures Blocks(Run(t, requests, odd), x) ==> Blocks(t, x)
  {
    LoopbackAlways(requests, x);
    ProtectedIsNeverBlocked(t, requests, odd, x);
  }

  lemma LoopbackAlways(requests: seq<Request>, x: nat)
    requires 0x7F00_0000 <= x < 0x8000_0000
    ensures AllProtect(requests, x)
  {
    forall i | 0 <= i < |requests| ensures Protects(requests[i].ranges, x) { LoopbackProtected(requests[i].ranges, x); }
  }
}
