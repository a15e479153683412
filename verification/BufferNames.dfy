/** The names of buffered files: their order as text, and when it is the order of the pushes. */
module BufferNames {
  import opened Text
  import opened Listing

  /** Byte order of text. */
  predicate TextLess(a: string, b: string)
    decreases |a|
  {
    if b == "" then false
    else if a == "" then true
    else a[0] < b[0] || (a[0] == b[0] && TextLess(a[1..], b[1..]))
  }

  function Zeros(n: nat): (s: string)
    ensures |s| == n && All(s, IsDigit)
  {
    seq(n, _ => '0')
  }

  /** `%08d`: at least eight digits. */
  function Pad(n: nat): (s: string)
    ensures All(s, IsDigit)
  {
    var digits := Digits(n);
    if |digits| < 8 then Zeros(8 - |digits|) + digits else digits
  }

  /** The name of a file pushed at the time `stamp` says. */
  function FileName(stamp: string, counter: nat): string { stamp + ("-" + (Pad(counter) + ".json")) }

  const COUNTER_BOUND := 100_000_000

  lemma {:induction false} LessConcat(a: string, b: string, x: string, y: string)
    requires |a| == |b|
    ensures TextLess(a + x, b + y) <==> TextLess(a, b) || (a == b && TextLess(x, y))
  {
    if a == "" {
      assert a + x == x && b + y == y;
    } else {
      assert (a + x)[1..] == a[1..] + x && (b + y)[1..] == b[1..] + y;
      LessConcat(a[1..], b[1..], x, y);
      HeadTail(a);
      HeadTail(b);
    }
  }

  lemma LessOne(x: char, y: char)
    ensures TextLess([x], [y]) <==> x < y
  {
    assert [x][1..] == [y][1..] == "";
  }

  lemma DigitLess(x: char, y: char)
    requires IsDigit(x) && IsDigit(y)
    ensures (x < y <==> DigitValue(x) < DigitValue(y)) && (x == y <==> DigitValue(x) == DigitValue(y))
  {
  }

  /** Equally long runs of digits are ordered as the numbers they denote. */
  lemma {:induction false} DigitsOrder(a: string, b: string)
    requires |a| == |b| && All(a, IsDigit) && All(b, IsDigit)
    ensures TextLess(a, b) <==> Value(a) < Value(b)
    ensures a == b <==> Value(a) == Value(b)
  {
    if a != "" {
      var n := |a| - 1;
      DigitsOrder(a[..n], b[..n]);
      assert a == a[..n] + [a[n]] && b == b[..n] + [b[n]];
      LessConcat(a[..n], b[..n], [a[n]], [b[n]]);
      LessOne(a[n], b[n]);
      DigitLess(a[n], b[n]);
    }
  }

  lemma {:induction false} ValueZeros(n: nat, s: string)
    requires All(s, IsDigit)
    ensures Value(Zeros(n) + s) == Value(s)
    decreases |s|, n
  {
    if s != "" {
      var last := |s| - 1;
      ValueZeros(n, s[..last]);
      assert (Zeros(n) + s)[..n + last] == Zeros(n) + s[..last];
    } else if n > 0 {
      assert (Zeros(n) + s)[..n - 1] == Zeros(n - 1) + s;
      ValueZeros(n - 1, s);
    }
  }

  function Power(n: nat): (p: nat)
    ensures p >= 1
  {
    if n == 0 then 1 else 10 * Power(n - 1)
  }

  lemma {:induction false} DigitsLength(n: nat, width: nat)
    requires 0 < width
    ensures |Digits(n)| <= width <==> n < Power(width)
    decreases width
  {
    if n < 10 {
    } else if width == 1 {
      assert Power(1) == 10 * Power(0);
    } else {
      DigitsLength(n / 10, width - 1);
      assert n / 10 < Power(width - 1) <==> n < 10 * Power(width - 1);
    }
  }

  lemma PowerOfEight()
    ensures Power(8) == COUNTER_BOUND
  {
    assert Power(3) == 1000;
    assert Power(6) == 1_000_000;
  }

  lemma PadIs(n: nat)
    ensures Value(Pad(n)) == n && (|Pad(n)| == 8 <==> n < COUNTER_BOUND)
  {
    PowerOfEight();
    DigitsLength(n, 8);
    ValueDigits(n);
    if |Digits(n)| < 8 { ValueZeros(8 - |Digits(n)|, Digits(n)); }
  }

  // ---- names, and their order ----

  /** The time and the counter of a push. */
  datatype Name = Name(time: int, counter: nat)

  /** The order of the names as text: the time decides, then the padded counters do. */
  predicate Before(a: Name, b: Name) {
    a.time < b.time || (a.time == b.time && TextLess(Pad(a.counter), Pad(b.counter)))
  }

  lemma {:induction false} Transitive(a: string, b: string, c: string)
    requires TextLess(a, b) && TextLess(b, c)
    ensures TextLess(a, c)
    decreases |a|
  {
    if a != "" && a[0] == b[0] == c[0] { Transitive(a[1..], b[1..], c[1..]); }
  }

  lemma {:induction false} Trichotomy(a: string, b: string)
    ensures a == b || TextLess(a, b) || TextLess(b, a)
    decreases |a|
  {
    if a != "" && b != "" && a[0] == b[0] {
      Trichotomy(a[1..], b[1..]);
      HeadTail(a);
      HeadTail(b);
    }
  }

  lemma BeforeIsTotal()
    ensures Total(Before)
  {
    forall a: Name ensures !Before(a, a) { Irreflexive(Pad(a.counter)); }
    forall a: Name, b: Name | a != b ensures Before(a, b) || Before(b, a) {
      PadIs(a.counter);
      PadIs(b.counter);
      Trichotomy(Pad(a.counter), Pad(b.counter));
    }
    forall a: Name, b: Name, c: Name | Before(a, b) && Before(b, c) ensures Before(a, c) {
      if a.time == b.time == c.time { Transitive(Pad(a.counter), Pad(b.counter), Pad(c.counter)); }
    }
  }

  /** Below ten to the eighth the padded counters sort as the counters. */
  lemma PadOrder(a: nat, b: nat)
    requires a < COUNTER_BOUND && b < COUNTER_BOUND
    ensures TextLess(Pad(a), Pad(b)) <==> a < b
  {
    PadIs(a);
    PadIs(b);
    DigitsOrder(Pad(a), Pad(b));
  }

  predicate AboveDot(c: char) { c > '.' }

  /** The extension never decides between different counters, as a dot sorts before every digit. */
  lemma {:induction false} ExtensionSilent(x: string, y: string)
    requires All(x, AboveDot) && All(y, AboveDot)
    ensures TextLess(x + ".json", y + ".json") <==> TextLess(x, y)
    decreases |x|
  {
    Irreflexive(".json");
    if x == "" || y == "" {
      assert (x + ".json")[0] == if x == "" then '.' else x[0];
      assert (y + ".json")[0] == if y == "" then '.' else y[0];
      assert x == "" ==> x + ".json" == ".json";
      assert y == "" ==> y + ".json" == ".json";
    } else {
      assert (x + ".json")[1..] == x[1..] + ".json" && (y + ".json")[1..] == y[1..] + ".json";
      ExtensionSilent(x[1..], y[1..]);
    }
  }

  /** When equally long stamps are ordered as the times they say, the names sort as `Before` says. */
  lemma NamesSortAsText(a: Name, b: Name, stampA: string, stampB: string)
    requires |stampA| == |stampB|
    requires (TextLess(stampA, stampB) <==> a.time < b.time) && (stampA == stampB <==> a.time == b.time)
    ensures TextLess(FileName(stampA, a.counter), FileName(stampB, b.counter)) <==> Before(a, b)
  {
    var x, y := Pad(a.counter), Pad(b.counter);
    LessConcat(stampA, stampB, "-" + (x + ".json"), "-" + (y + ".json"));
    LessConcat("-", "-", x + ".json", y + ".json");
    Irreflexive("-");
    DigitsAboveDot(x);
    DigitsAboveDot(y);
    ExtensionSilent(x, y);
  }

  lemma DigitsAboveDot(x: string)
    requires All(x, IsDigit)
    ensures All(x, AboveDot)
  {
  }

  lemma {:induction false} Irreflexive(s: string)
    ensures !TextLess(s, s)
  {
    if s != "" { Irreflexive(s[1..]); }
  }

  /** The name with the next counter sorts first when the counter outgrows its padding. */
  lemma BoundIsSharp(stamp: string)
    ensures TextLess(FileName(stamp, COUNTER_BOUND), FileName(stamp, COUNTER_BOUND - 1))
  {
    PadsCross();
    PadsDecide(stamp, Pad(COUNTER_BOUND), Pad(COUNTER_BOUND - 1));
  }

  lemma PadsCross()
    ensures Pad(COUNTER_BOUND) != "" && Pad(COUNTER_BOUND - 1) != ""
    ensures Pad(COUNTER_BOUND)[0] < Pad(COUNTER_BOUND - 1)[0]
  {
    PowerOfEight();
    FirstDigit(COUNTER_BOUND, 8, 1);
    FirstDigit(COUNTER_BOUND - 1, 7, 9);
  }

  lemma PadsDecide(stamp: string, x: string, y: string)
    requires x != "" && y != "" && x[0] < y[0]
    ensures TextLess(stamp + ("-" + (x + ".json")), stamp + ("-" + (y + ".json")))
  {
    LessConcat(stamp, stamp, "-" + (x + ".json"), "-" + (y + ".json"));
    LessConcat("-", "-", x + ".json", y + ".json");
  }

  /** The digit before `k` others. */
  lemma {:induction false} FirstDigit(n: nat, k: nat, d: nat)
    requires 0 < d < 10 && d * Power(k) <= n < (d + 1) * Power(k)
    ensures |Digits(n)| == k + 1 && Digits(n)[0] == DigitChar(d)
    decreases k
  {
    if k > 0 {
      Tenth(n, Power(k - 1), d);
      FirstDigit(n / 10, k - 1, d);
    }
  }

  lemma Tenth(n: nat, p: nat, d: nat)
    requires p >= 1 && 0 < d && d * (10 * p) <= n < (d + 1) * (10 * p)
    ensures d * p <= n / 10 < (d + 1) * p && n >= 10
  {
    assert d * (10 * p) == 10 * (d * p) && (d + 1) * (10 * p) == 10 * ((d + 1) * p);
  }
}
