/** What a protected list given too late does not undo. */
module ProtectedLists {
  import opened Text
  import opened Masks
  import opened IpGuard

  // ---- dotted addresses ----

  predicate IsAddressChar(c: char) { IsDigit(c) || c == '.' }

  function Dotted(a: nat, b: nat, c: nat, d: nat): string {
    Digits(a) + "." + (Digits(b) + "." + (Digits(c) + "." + Digits(d)))
  }

  lemma OctetPrints(n: nat)
    requires n < 256
    ensures IsOctet(Digits(n)) && Value(Digits(n)) == n && '.' !in Digits(n)
  {
    ValueDigits(n);
    if n >= 10 { assert |Digits(n / 10)| <= 2; }
  }

  lemma DottedSplits(p: seq<string>, s: string)
    requires |p| == 4 && forall i :: 0 <= i < 4 ==> '.' !in p[i]
    requires s == p[0] + "." + (p[1] + "." + (p[2] + "." + p[3]))
    ensures Split(s, '.') == p
  {
    JoinFour(p, ".");
    SplitJoin(p, '.');
  }

  lemma DottedChars(a: nat, b: nat, c: nat, d: nat)
    ensures All(Dotted(a, b, c, d), IsAddressChar)
  {
  }

  /** Reading a printed address gives back its four parts. */
  lemma DottedReads(a: nat, b: nat, c: nat, d: nat)
    requires a < 256 && b < 256 && c < 256 && d < 256
    ensures IsV4Addr(Dotted(a, b, c, d))
    ensures ToInt(Dotted(a, b, c, d)) == a * 0x100_0000 + b * 0x1_0000 + c * 0x100 + d
  {
    OctetPrints(a);
    OctetPrints(b);
    OctetPrints(c);
    OctetPrints(d);
    DottedSplits([Digits(a), Digits(b), Digits(c), Digits(d)], Dotted(a, b, c, d));
  }

  /** A bare address is a range of one. */
  lemma BareAddress(s: string)
    requires IsV4Addr(s) && All(s, IsAddressChar)
    ensures !IsV6(s) && !Odd(s) && ParseCidr(s) == Some(Cidr(ToInt(s), 32))
  {
    NoSlash(s);
    ThirtyTwo("32");
  }

  lemma NoSlash(s: string)
    requires All(s, IsAddressChar)
    ensures AddrPart(s) == s && LenPart(s) == "32" && '/' !in s && ':' !in s
  {
    IndexIs(s, '/');
  }

  lemma ThirtyTwo(s: string)
    requires s == "32"
    ensures IsPlain(s) && ShellValue(s) == 32
  {
    assert Digits(3) == "3";
    assert Digits(32) == s;
    ValueDigits(32);
  }

  // ---- one entry, blocked before it was protected ----

  lemma {:induction false} TwoWords(a: string, b: string)
    requires a != "" && b != "" && All(a, NotBlank) && All(b, NotBlank)
    ensures Words(a + (" " + b)) == [a, b]
  {
    var s := a + (" " + b);
    SpanIs(s, IsBlank, 0);
    SpanIs(s, NotBlank, |a|);
    assert s[0..] == s && s[..|a|] == a && s[|a|..] == " " + b;
    LastWord(b);
  }

  lemma LastWord(b: string)
    requires b != "" && All(b, NotBlank)
    ensures Words(" " + b) == [b]
  {
    SpanIs(" " + b, IsBlank, 1);
    assert (" " + b)[1..] == b;
    SpanIs(b, NotBlank, |b|);
    assert b[..|b|] == b && b[|b|..] == "";
    SpanIs("", IsBlank, 0);
  }

  lemma AlreadyNormal(e: string)
    requires All(e, IsAddressChar)
    ensures Normalize(e) == e
  {
    SpacesDropped(e);
    NoSuffix(e, "/32");
    NoSuffix(e, "/128");
  }

  lemma NoSuffix(e: string, suffix: string)
    requires All(e, IsAddressChar) && suffix != "" && suffix[0] == '/'
    ensures !EndsWith(e, suffix)
  {
    NoSlash(e);
    EndsHas(e, suffix);
  }

  lemma EndsHas(e: string, suffix: string)
    requires suffix != ""
    ensures EndsWith(e, suffix) ==> suffix[0] in e
  {
    if EndsWith(e, suffix) { assert e[|e| - |suffix|] == suffix[0]; }
  }

  function BlockLine(e: string): string { "block" + (" " + e) }

  lemma Uncommented(line: string)
    requires '#' !in line
    ensures line[..IndexOf(line, '#')] == line
  {
    IndexIs(line, '#');
  }

  lemma BlockLineIs(e: string, line: string)
    requires All(e, IsAddressChar) && line == BlockLine(e)
    ensures '#' !in line && NL !in line
  {
  }

  lemma LineMeans(e: string, ranges: seq<string>, odd: (string, string) -> bool)
    requires e != "" && All(e, IsAddressChar)
    ensures Meaning(BlockLine(e), ranges, odd) == EntryMeaning("block", e, ranges, odd)
  {
    var line := BlockLine(e);
    BlockLineIs(e, line);
    Uncommented(line);
    TwoWords("block", e);
    AlreadyNormal(e);
  }

  lemma InputMeans(e: string, ranges: seq<string>, odd: (string, string) -> bool)
    requires e != "" && All(e, IsAddressChar) && !IsV6(e)
    ensures Read(Lines(BlockLine(e)), ranges, odd) ==
      if Allowed(e, WithLoopback(ranges), odd) then Wanted(EMPTY.(block4 := {e})) else Refused(ProtectedRange)
  {
    LineMeans(e, ranges, odd);
    BlockLineIs(e, BlockLine(e));
    SplitWhole(BlockLine(e), NL);
    OneLineRead(BlockLine(e), ranges, odd);
    assert {} + {e} == {e};
  }

  lemma OneLineRead(line: string, ranges: seq<string>, odd: (string, string) -> bool)
    ensures Read([line], ranges, odd) == Absorb(Wanted(EMPTY), Meaning(line, ranges, odd))
  {
    assert [line][..0] == [];
  }

  lemma OneAddress(x: nat, addr: nat)
    requires x < WORD && addr < WORD
    ensures InCidr(x, Cidr(addr, 32)) <==> x == addr
  {
    assert Pow2(0) == 1;
  }

  predicate InLoopback(x: nat) { 0x7F00_0000 <= x < 0x8000_0000 }

  lemma OutsideLoopback(x: nat)
    requires x < WORD && !InLoopback(x)
    ensures Block(x, 8) != 127
  {
    assert Pow2(3) == 8;
    Squares(3, 8);
    Squares(6, 64);
    Squares(12, 4096);
    OctetIsNot(x, Pow2(24));
  }

  lemma OctetIsNot(x: nat, p: nat)
    requires x < WORD && !InLoopback(x) && p == 0x100_0000
    ensures x % WORD / p != 127
  {
  }

  lemma NoneShared(addr: nat)
    requires addr < WORD && !InLoopback(addr)
    ensures !Meet(Cidr(addr, 32), Cidr(0x7F00_0000, 8))
  {
    FirstOctet(0x7F00_0000);
    OutsideLoopback(addr);
    forall x: nat ensures !(InCidr(x, Cidr(addr, 32)) && InCidr(x, Cidr(0x7F00_0000, 8))) {
      if x < WORD { OneAddress(x, addr); }
    }
  }

  lemma NotLoopback(e: string, odd: (string, string) -> bool)
    requires IsV4Addr(e) && All(e, IsAddressChar) && ToInt(e) < WORD && !InLoopback(ToInt(e))
    ensures Allowed(e, WithLoopback([]), odd)
  {
    LoopbackAllows(e, LOOPBACK, odd);
    LoopbackSixAllows(e, LOOPBACK6, odd);
    assert WithLoopback([]) == [LOOPBACK, LOOPBACK6];
  }

  lemma LoopbackAllows(e: string, loopback: string, odd: (string, string) -> bool)
    requires IsV4Addr(e) && All(e, IsAddressChar) && ToInt(e) < WORD && !InLoopback(ToInt(e)) && loopback == LOOPBACK
    ensures !Forbids(loopback, e, odd)
  {
    BareAddress(e);
    LoopbackReads(loopback);
    NoneShared(ToInt(e));
    OverlapsExact(e, loopback, odd);
  }

  lemma LoopbackReads(s: string)
    requires s == LOOPBACK
    ensures !IsV6(s) && !Odd(s) && ParseCidr(s) == Some(Cidr(0x7F00_0000, 8))
  {
    LoopbackParses(s);
  }

  lemma LoopbackSixAllows(e: string, loopback: string, odd: (string, string) -> bool)
    requires All(e, IsAddressChar) && loopback == LOOPBACK6
    ensures !Forbids(loopback, e, odd)
  {
    NoSlash(e);
    assert loopback[0] == ':';
  }

  lemma ForbidsItself(e: string, odd: (string, string) -> bool)
    requires IsV4Addr(e) && All(e, IsAddressChar)
    ensures !Allowed(e, WithLoopback([e]), odd)
  {
    BareAddress(e);
    assert CidrContains(Cidr(ToInt(e), 32), Cidr(ToInt(e), 32));
    assert Forbids(e, e, odd);
    assert WithLoopback([e])[0] == e;
  }

  /** The address is on nobody's list when it is blocked, and on the caller's list
      in the next apply of the same input. */
  function LateList(e: string): seq<Request> {
    [Request(BlockLine(e), [], 1), Request(BlockLine(e), [e], 1)]
  }

  lemma FirstApply(e: string, odd: (string, string) -> bool)
    requires IsV4Addr(e) && All(e, IsAddressChar) && ToInt(e) < WORD && !InLoopback(ToInt(e))
    ensures Serve(EMPTY, LateList(e)[0], odd) == EMPTY.(block4 := {e})
  {
    BareAddress(e);
    NotLoopback(e, odd);
    InputMeans(e, [], odd);
    var want := EMPTY.(block4 := {e});
    OneCommand(e);
    ReachesWanted(EMPTY, want);
  }

  lemma OneCommand(e: string)
    ensures |Plan(EMPTY, EMPTY.(block4 := {e}))| == 1
  {
    var want := EMPTY.(block4 := {e});
    FourPlans(PlanOf(EMPTY, want));
    NewOnly(BlockV4, {e});
  }

  lemma NewOnly(name: SetName, elems: set<string>)
    requires elems != {}
    ensures |PlanFor(name, {}, elems)| == 1
  {
    var none: set<string> := {};
    assert elems - none == elems && none - elems == {};
  }

  lemma FourPlans(plan: SetName -> seq<Command>)
    ensures FlatMap(NAMES, plan) == plan(AllowV4) + (plan(AllowV6) + (plan(BlockV4) + (plan(BlockV6) + [])))
  {
    var names := NAMES;
    assert names[1..][0] == AllowV6 && names[1..][1..][0] == BlockV4 && names[1..][1..][1..][0] == BlockV6;
    assert names[1..][1..][1..][1..] == [];
  }

  lemma SecondApply(e: string, odd: (string, string) -> bool, t: Table)
    requires IsV4Addr(e) && All(e, IsAddressChar)
    ensures Serve(t, LateList(e)[1], odd) == t && Wants(LateList(e)[1], odd) == Refused(ProtectedRange)
  {
    BareAddress(e);
    ForbidsItself(e, odd);
    InputMeans(e, [e], odd);
  }

  /** For every IPv4 address outside loopback: blocked by an apply without a list,
      it stays blocked through the apply whose list protects it, which is refused. */
  lemma RefusalKeepsBlock(a: nat, b: nat, c: nat, d: nat, odd: (string, string) -> bool)
    requires a < 256 && b < 256 && c < 256 && d < 256 && a != 127
    ensures var e, x := Dotted(a, b, c, d), a * 0x100_0000 + b * 0x1_0000 + c * 0x100 + d;
      && Protects(LateList(e)[1].ranges, x)
      && Wants(LateList(e)[1], odd) == Refused(ProtectedRange)
      && Blocks(Run(EMPTY, LateList(e), odd), x)
  {
    var e, x := Dotted(a, b, c, d), a * 0x100_0000 + b * 0x1_0000 + c * 0x100 + d;
    DottedReads(a, b, c, d);
    DottedChars(a, b, c, d);
    KeepsBlock(e, x, odd);
  }

  lemma KeepsBlock(e: string, x: nat, odd: (string, string) -> bool)
    requires IsV4Addr(e) && All(e, IsAddressChar) && ToInt(e) == x < WORD && !InLoopback(x)
    ensures Protects(LateList(e)[1].ranges, x) && Wants(LateList(e)[1], odd) == Refused(ProtectedRange)
    ensures Blocks(Run(EMPTY, LateList(e), odd), x)
  {
    BareAddress(e);
    OneAddress(x, x);
    assert Covers(e, x);
    assert WithLoopback([e])[0] == e;
    FirstApply(e, odd);
    SecondApply(e, odd, EMPTY.(block4 := {e}));
    BothApplied(e, odd);
    assert e in EMPTY.(block4 := {e}).block4;
  }

  lemma BothApplied(e: string, odd: (string, string) -> bool)
    ensures var r := LateList(e);
      Run(EMPTY, r, odd) == Serve(Serve(EMPTY, r[0], odd), r[1], odd)
  {
    var r := LateList(e);
    RunMore(Applies(odd), EMPTY, r, 0);
    RunMore(Applies(odd), EMPTY, r, 1);
    assert r[..2] == r && r[..0] == [];
  }
}
