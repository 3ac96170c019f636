/** The text chrono gives a UTC instant, the order of such texts, and reading them back. */
module Rfc3339 {
  import opened Basics
  import opened Decimal
  import opened Calendar
  import opened Text

  const ZONE := "+00:00"

  /** How many fraction digits are written: none, or the first of 3, 6 and 9 that is exact. */
  function FractionWidth(nano: nat): (w: nat)
    ensures w == 0 || w == 3 || w == 6 || w == 9
  {
    if nano == 0 then 0
    else if nano % 1_000_000 == 0 then 3
    else if nano % 1_000 == 0 then 6
    else 9
  }

  function FractionValue(nano: nat): nat {
    if FractionWidth(nano) == 3 then nano / 1_000_000
    else if FractionWidth(nano) == 6 then nano / 1_000
    else nano
  }

  lemma Powers()
    ensures Pow10(2) == 100 && Pow10(3) == 1_000 && Pow10(4) == 10_000
    ensures Pow10(6) == 1_000_000 && Pow10(9) == 1_000_000_000
  {
    assert Pow10(5) == 100_000;
    assert Pow10(7) == 10_000_000;
  }

  /** The fraction is as short as it can be in steps of three digits without losing anything. */
  lemma FractionShortest(nano: nat)
    requires nano < 1_000_000_000
    ensures FractionWidth(nano) == 0 <==> nano == 0
    ensures FractionWidth(nano) <= 3 <==> nano % 1_000_000 == 0
    ensures FractionWidth(nano) <= 6 <==> nano % 1_000 == 0
  {
  }

  function FractionDigits(nano: nat): (s: string)
    requires nano < 1_000_000_000
    ensures |s| == FractionWidth(nano)
  {
    Powers();
    if nano == 0 then "" else Fixed(FractionValue(nano), FractionWidth(nano))
  }

  function Fraction(nano: nat): string
    requires nano < 1_000_000_000
  {
    if nano == 0 then "" else "." + FractionDigits(nano)
  }

  function Two(n: nat, rest: string): string
    requires n < 100
  {
    Powers();
    Fixed(n, 2) + rest
  }

  function Year(n: nat, rest: string): string
    requires n < 10_000
  {
    Powers();
    Fixed(n, 4) + rest
  }

  /** `YYYY-MM-DDTHH:MM:SS`, followed by `rest`. */
  function Seconds(c: Civil, rest: string): string
    requires ValidCivil(c)
  {
    Year(c.year, "-" + Two(c.month, "-" + Two(c.day, "T" +
      Two(c.hour, ":" + Two(c.minute, ":" + Two(c.second, rest))))))
  }

  function Format(c: Civil): string
    requires ValidCivil(c)
  {
    Seconds(c, Fraction(c.nano) + ZONE)
  }

  function ToRfc3339(t: Instant): string { Format(ToCivil(t)) }

  // Order of the parts.

  lemma {:induction false} FixedInjective(m: nat, n: nat, w: nat)
    requires m < Pow10(w) && n < Pow10(w) && Fixed(m, w) == Fixed(n, w)
    ensures m == n
  {
    ValueOfFixed(m, w);
    ValueOfFixed(n, w);
  }

  lemma {:induction false} FixedLess(m: nat, n: nat, w: nat)
    requires m < Pow10(w) && n < Pow10(w)
    ensures Less(Fixed(m, w), Fixed(n, w)) <==> m < n
  {
    if w > 0 {
      var a, b := Fixed(m / 10, w - 1), Fixed(n / 10, w - 1);
      var d, e := [DigitChar(m % 10)], [DigitChar(n % 10)];
      FixedLess(m / 10, n / 10, w - 1);
      if m / 10 == n / 10 {
        LessAfterPrefix(a, d, e);
        assert Less(d, e) <==> m % 10 < n % 10;
      } else {
        if a == b { FixedInjective(m / 10, n / 10, w - 1); }
        LessDecided(a, b, d, e);
      }
    }
  }

  /** Zero-padded numbers of one width compare as numbers; equal ones defer to what follows. */
  lemma FixedOrder(m: nat, n: nat, w: nat, x: string, y: string)
    requires m < Pow10(w) && n < Pow10(w)
    ensures Less(Fixed(m, w) + x, Fixed(n, w) + y) <==> m < n || (m == n && Less(x, y))
  {
    if m == n {
      LessAfterPrefix(Fixed(m, w), x, y);
    } else {
      if Fixed(m, w) == Fixed(n, w) { FixedInjective(m, n, w); }
      FixedLess(m, n, w);
      LessDecided(Fixed(m, w), Fixed(n, w), x, y);
    }
  }

  /** `v` without its last `j` digits. */
  function Chop(v: nat, j: nat): nat { if j == 0 then v else Chop(v / 10, j - 1) }

  lemma {:induction false} FixedSplit(v: nat, k: nat, j: nat) returns (s: string)
    requires v < Pow10(k + j)
    ensures Chop(v, j) < Pow10(k) && Fixed(v, k + j) == Fixed(Chop(v, j), k) + s
    ensures |s| == j && AllDigits(s)
  {
    if j == 0 {
      s := "";
    } else {
      s := FixedSplit(v / 10, k, j - 1);
      s := s + [DigitChar(v % 10)];
    }
  }

  /** The zone sorts below any digit, so a fraction sorts below its own extensions. */
  lemma ShorterFirst(a: nat, k: nat, v: nat, j: nat)
    requires a < Pow10(k) && v < Pow10(k + j) && j > 0
    ensures Less(Fixed(a, k) + ZONE, Fixed(v, k + j) + ZONE) <==> a <= Chop(v, j)
    ensures Less(Fixed(v, k + j) + ZONE, Fixed(a, k) + ZONE) <==> Chop(v, j) < a
  {
    var s := FixedSplit(v, k, j);
    assert Fixed(v, k + j) + ZONE == Fixed(Chop(v, j), k) + (s + ZONE);
    FixedOrder(a, Chop(v, j), k, ZONE, s + ZONE);
    FixedOrder(Chop(v, j), a, k, s + ZONE, ZONE);
    assert (s + ZONE)[0] == s[0];
  }

  lemma ChopThree(v: nat)
    ensures Chop(v, 3) == v / 1_000
  {
    assert Chop(v, 3) == Chop(v / 10, 2);
    assert Chop(v / 10, 2) == Chop(v / 10 / 10, 1);
  }

  lemma ChopSix(v: nat)
    ensures Chop(v, 6) == v / 1_000_000
  {
    assert Chop(v, 6) == Chop(v / 10, 5) == Chop(v / 10 / 10, 4) == Chop(v / 10 / 10 / 10, 3);
    ChopThree(v / 10 / 10 / 10);
  }

  /** Fractions compare as numbers even when they are written with different lengths. */
  lemma FractionDigitsOrder(m: nat, n: nat)
    requires 0 < m < 1_000_000_000 && 0 < n < 1_000_000_000
    ensures Less(FractionDigits(m) + ZONE, FractionDigits(n) + ZONE) <==> m < n
  {
    Powers();
    var v, w, k, l := FractionValue(m), FractionValue(n), FractionWidth(m), FractionWidth(n);
    if k == l {
      FixedOrder(v, w, k, ZONE, ZONE);
      LessIrreflexive(ZONE);
    } else if k < l {
      ShorterFirst(v, k, w, l - k);
      if l - k == 3 { ChopThree(w); } else { ChopSix(w); }
    } else {
      ShorterFirst(w, l, v, k - l);
      if k - l == 3 { ChopThree(v); } else { ChopSix(v); }
    }
  }

  lemma {:induction false} LessIrreflexive(s: string)
    ensures !Less(s, s)
  {
    if s != [] { LessIrreflexive(s[1..]); }
  }

  lemma FractionParts(m: nat)
    requires m < 1_000_000_000
    ensures Fraction(m) + ZONE == if m == 0 then ZONE else "." + (FractionDigits(m) + ZONE)
  {
  }

  /** The zone sorts below the decimal point. */
  lemma ZoneBeforeDot(x: string)
    ensures Less(ZONE, "." + x) && !Less("." + x, ZONE)
  {
  }

  lemma FractionOrder(m: nat, n: nat)
    requires m < 1_000_000_000 && n < 1_000_000_000
    ensures Less(Fraction(m) + ZONE, Fraction(n) + ZONE) <==> m < n
  {
    FractionParts(m);
    FractionParts(n);
    if m == 0 && n == 0 {
      LessIrreflexive(ZONE);
    } else if m == 0 {
      ZoneBeforeDot(FractionDigits(n) + ZONE);
    } else if n == 0 {
      ZoneBeforeDot(FractionDigits(m) + ZONE);
    } else {
      LessAfterPrefix(".", FractionDigits(m) + ZONE, FractionDigits(n) + ZONE);
      FractionDigitsOrder(m, n);
    }
  }

  lemma TwoOrder(m: nat, n: nat, p: string, x: string, y: string)
    requires m < 100 && n < 100
    ensures Less(p + Two(m, x), p + Two(n, y)) <==> m < n || (m == n && Less(x, y))
  {
    Powers();
    LessAfterPrefix(p, Two(m, x), Two(n, y));
    FixedOrder(m, n, 2, x, y);
  }

  lemma FormatOrder(a: Civil, b: Civil)
    requires ValidCivil(a) && ValidCivil(b)
    ensures Less(Format(a), Format(b)) <==> Before(a, b)
  {
    Powers();
    var x6, y6 := Fraction(a.nano) + ZONE, Fraction(b.nano) + ZONE;
    var x5, y5 := ":" + Two(a.second, x6), ":" + Two(b.second, y6);
    var x4, y4 := ":" + Two(a.minute, x5), ":" + Two(b.minute, y5);
    var x3, y3 := "T" + Two(a.hour, x4), "T" + Two(b.hour, y4);
    var x2, y2 := "-" + Two(a.day, x3), "-" + Two(b.day, y3);
    var x1, y1 := "-" + Two(a.month, x2), "-" + Two(b.month, y2);
    FractionOrder(a.nano, b.nano);
    TwoOrder(a.second, b.second, ":", x6, y6);
    TwoOrder(a.minute, b.minute, ":", x5, y5);
    TwoOrder(a.hour, b.hour, "T", x4, y4);
    TwoOrder(a.day, b.day, "-", x3, y3);
    TwoOrder(a.month, b.month, "-", x2, y2);
    FixedOrder(a.year, b.year, 4, x1, y1);
  }

  /** Bytewise order of the stored texts is chronological order. */
  lemma TextOrderIsTimeOrder(t: Instant, u: Instant)
    ensures Less(ToRfc3339(t), ToRfc3339(u)) <==> t < u
  {
    FormatOrder(ToCivil(t), ToCivil(u));
    FieldOrder(ToCivil(t), ToCivil(u));
  }

  // Reading back.

  function Number(s: string): (r: Option<nat>) {
    if AllDigits(s) then Some(Value(s)) else None
  }

  function ParseFraction(s: string): (r: Option<nat>) {
    if s == "" then Some(0)
    else if s[0] == '.' && 2 <= |s| <= 10 && AllDigits(s[1..]) then Some(Value(s[1..]) * Pow10(10 - |s|))
    else None
  }

  /** The part of the RFC 3339 grammar that `ToRfc3339` can produce. */
  function Parse(s: string): (r: Option<nat>) {
    if |s| < 25 || s[4] != '-' || s[7] != '-' || s[10] != 'T' || s[13] != ':' || s[16] != ':'
       || s[|s| - 6..] != ZONE then None
    else
      var (y, mo, d) := (Number(s[..4]), Number(s[5..7]), Number(s[8..10]));
      var (h, mi, sec) := (Number(s[11..13]), Number(s[14..16]), Number(s[17..19]));
      var nano := ParseFraction(s[19..|s| - 6]);
      if y.None? || mo.None? || d.None? || h.None? || mi.None? || sec.None? || nano.None? then None
      else
        var c := Civil(y.value, mo.value, d.value, h.value, mi.value, sec.value, nano.value);
        if ValidCivil(c) then Some(ToInstant(c)) else None
  }

  lemma ParseFractionBack(nano: nat)
    requires nano < 1_000_000_000
    ensures ParseFraction(Fraction(nano)) == Some(nano)
  {
    Powers();
    if nano > 0 {
      assert Fraction(nano)[1..] == FractionDigits(nano);
      ValueOfFixed(FractionValue(nano), FractionWidth(nano));
      assert Pow10(0) == 1;
    }
  }

  lemma TwoBack(n: nat, rest: string)
    requires n < 100
    ensures |Two(n, rest)| == 2 + |rest| && Two(n, rest)[2..] == rest && Number(Two(n, rest)[..2]) == Some(n)
  {
    Powers();
    ValueOfFixed(n, 2);
    assert Two(n, rest)[..2] == Fixed(n, 2);
  }

  lemma YearBack(n: nat, rest: string)
    requires n < 10_000
    ensures |Year(n, rest)| == 4 + |rest| && Year(n, rest)[4..] == rest && Number(Year(n, rest)[..4]) == Some(n)
  {
    Powers();
    ValueOfFixed(n, 4);
    assert Year(n, rest)[..4] == Fixed(n, 4);
  }

  /** Taking the next two-digit field and its leading separator off a text. */
  lemma NextField(s: string, i: nat, p: char, n: nat, rest: string)
    requires n < 100 && i <= |s| && s[i..] == [p] + Two(n, rest)
    ensures i + 3 <= |s| && s[i] == p && Number(s[i + 1..i + 3]) == Some(n) && s[i + 3..] == rest
  {
    TwoBack(n, rest);
    assert s[i + 1..] == s[i..][1..] == Two(n, rest);
    assert s[i + 1..i + 3] == s[i + 1..][..2];
    assert s[i + 3..] == s[i + 1..][2..];
    assert s[i] == s[i..][0];
  }

  lemma SplitZone(s: string, i: nat, f: string)
    requires i <= |s| && s[i..] == f + ZONE
    ensures |s| == i + |f| + 6 && s[|s| - 6..] == ZONE && s[i..|s| - 6] == f
  {
    assert |s[i..]| == |f| + |ZONE|;
    assert s[|s| - 6..] == s[i..][|f|..];
    assert s[i..|s| - 6] == s[i..][..|f|];
  }

  lemma ParseFormat(c: Civil)
    requires ValidCivil(c)
    ensures Parse(Format(c)) == Some(ToInstant(c))
  {
    var s, x6 := Format(c), Fraction(c.nano) + ZONE;
    var x5 := ":" + Two(c.second, x6);
    var x4 := ":" + Two(c.minute, x5);
    var x3 := "T" + Two(c.hour, x4);
    var x2 := "-" + Two(c.day, x3);
    var x1 := "-" + Two(c.month, x2);
    YearBack(c.year, x1);
    NextField(s, 4, '-', c.month, x2);
    NextField(s, 7, '-', c.day, x3);
    NextField(s, 10, 'T', c.hour, x4);
    NextField(s, 13, ':', c.minute, x5);
    NextField(s, 16, ':', c.second, x6);
    SplitZone(s, 19, Fraction(c.nano));
    ParseFractionBack(c.nano);
  }

  /** A stored expiry is read back as the instant it was written for. */
  lemma ParseBack(t: Instant)
    ensures Parse(ToRfc3339(t)) == Some(t)
  {
    ParseFormat(ToCivil(t));
  }
}
