/** The card number check and the errors it catches. */
module Luhn {
  import opened Decimal

  type digit = d: nat | d < 10

  /** The digits of a text, in order; everything else is dropped. */
  function DigitsOf(s: string): seq<digit> {
    if s == "" then []
    else (if IsDigit(s[0]) then [DigitValue(s[0])] else []) + DigitsOf(s[1..])
  }

  /** A digit's share: every second one from the right is doubled, less nine above nine. */
  function Term(d: digit, doubled: bool): (r: nat)
    ensures r < 10
  {
    if !doubled then d else if 2 * d > 9 then 2 * d - 9 else 2 * d
  }

  /** The sum of the shares of `ds` when `after` more digits stand to its right. */
  function Sum(ds: seq<digit>, after: nat): nat {
    if ds == [] then 0 else Term(ds[0], Odd(|ds| - 1 + after)) + Sum(ds[1..], after)
  }

  predicate Odd(n: nat) { n % 2 == 1 }

  predicate ValidDigits(ds: seq<digit>) { 13 <= |ds| <= 19 && Sum(ds, 0) % 10 == 0 }

  predicate Validate(card: string) { ValidDigits(DigitsOf(card)) }

  lemma {:induction false} SumConcat(a: seq<digit>, b: seq<digit>, after: nat)
    ensures Sum(a + b, after) == Sum(a, |b| + after) + Sum(b, after)
  {
    if a == [] {
      assert a + b == b;
    } else {
      SumConcat(a[1..], b, after);
      assert (a + b)[1..] == a[1..] + b;
    }
  }

  lemma {:induction false} DigitsConcat(a: string, b: string)
    ensures DigitsOf(a + b) == DigitsOf(a) + DigitsOf(b)
  {
    if a == [] {
      assert a + b == b;
    } else {
      DigitsConcat(a[1..], b);
      assert (a + b)[1..] == a[1..] + b;
      var head := if IsDigit(a[0]) then [DigitValue(a[0])] else [];
      assert DigitsOf(a + b) == head + (DigitsOf(a[1..]) + DigitsOf(b));
      assert DigitsOf(a) == head + DigitsOf(a[1..]);
    }
  }

  lemma DigitsOfOne(c: char)
    ensures DigitsOf([c]) == if IsDigit(c) then [DigitValue(c)] else []
  {
    assert [c][1..] == "";
  }

  lemma SameRemainder(m: nat, n: nat)
    requires -10 < m - n < 10
    ensures m % 10 == n % 10 <==> m == n
  {
  }

  lemma SumOfOne(x: digit, after: nat)
    ensures Sum([x], after) == Term(x, Odd(after))
  {
    assert [x][1..] == [];
  }

  lemma SumSplit(a: seq<digit>, x: digit, b: seq<digit>)
    ensures Sum(a + [x] + b, 0) == Sum(a, 1 + |b|) + Term(x, Odd(|b|)) + Sum(b, 0)
  {
    hide Sum;
    SumConcat(a + [x], b, 0);
    SumConcat(a, [x], |b|);
    SumOfOne(x, |b|);
  }

  /** Changing one digit changes its share by less than ten, and by something. */
  lemma SumOneChanged(a: seq<digit>, x: digit, y: digit, b: seq<digit>)
    requires x != y
    ensures Sum(a + [x] + b, 0) % 10 != Sum(a + [y] + b, 0) % 10
  {
    SumSplit(a, x, b);
    SumSplit(a, y, b);
    SameRemainder(Sum(a + [x] + b, 0), Sum(a + [y] + b, 0));
  }

  lemma SumSplitTwo(a: seq<digit>, x: digit, y: digit, b: seq<digit>)
    ensures Sum(a + [x, y] + b, 0)
            == Sum(a, 2 + |b|) + Term(x, !Odd(|b|)) + Term(y, Odd(|b|)) + Sum(b, 0)
  {
    hide Sum;
    assert a + [x, y] + b == (a + [x]) + [y] + b;
    SumSplit(a + [x], y, b);
    SumConcat(a, [x], 1 + |b|);
    SumOfOne(x, 1 + |b|);
  }

  /** Swapping two neighbours keeps the check exactly when they are equal or 0 and 9. */
  lemma SumSwapped(a: seq<digit>, x: digit, y: digit, b: seq<digit>)
    ensures Sum(a + [x, y] + b, 0) % 10 == Sum(a + [y, x] + b, 0) % 10
            <==> x == y || (x == 0 && y == 9) || (x == 9 && y == 0)
  {
    SumSplitTwo(a, x, y, b);
    SumSplitTwo(a, y, x, b);
    SameRemainder(Sum(a + [x, y] + b, 0), Sum(a + [y, x] + b, 0));
  }

  // What is summed.

  /** The share of the digit at position `k` from the right: itself, or the digit sum of its
      double. */
  function Share(d: digit, k: nat): nat { if k % 2 == 0 then d else 2 * d / 10 + 2 * d % 10 }

  /** The shares of the last `n` digits. */
  function Shares(ds: seq<digit>, n: nat): nat
    requires n <= |ds|
  {
    if n == 0 then 0 else Shares(ds, n - 1) + Share(ds[|ds| - n], n - 1)
  }

  lemma {:induction false} SharesOfRest(ds: seq<digit>, n: nat)
    requires n < |ds|
    ensures Shares(ds, n) == Shares(ds[1..], n)
  {
    if n > 0 { SharesOfRest(ds, n - 1); }
  }

  lemma {:induction false} SumIsShares(ds: seq<digit>)
    ensures Sum(ds, 0) == Shares(ds, |ds|)
  {
    if ds != [] {
      var n := |ds| - 1;
      SumIsShares(ds[1..]);
      SharesOfRest(ds, n);
      assert Term(ds[0], Odd(n)) == Share(ds[0], n);
    }
  }

  /** A card number passes exactly when it has 13 to 19 digits and, counted from the right, the
      even digits and the digit sums of the doubled odd ones add up to a multiple of ten. */
  lemma ValidateIff(card: string)
    ensures Validate(card) <==>
              13 <= |DigitsOf(card)| <= 19 && Shares(DigitsOf(card), |DigitsOf(card)|) % 10 == 0
  {
    SumIsShares(DigitsOf(card));
  }

  /** A valid number with one digit mistyped is rejected, whatever separators it has. */
  lemma SingleErrorDetected(card: string, i: nat, c: char)
    requires i < |card| && IsDigit(card[i]) && IsDigit(c) && c != card[i]
    requires Validate(card)
    ensures !Validate(card[i := c])
  {
    var a, b := card[..i], card[i + 1..];
    assert card == a + [card[i]] + b && card[i := c] == a + [c] + b;
    DigitsAround(a, card[i], b);
    DigitsAround(a, c, b);
    SumOneChanged(DigitsOf(a), DigitValue(card[i]), DigitValue(c), DigitsOf(b));
  }

  lemma DigitsAround(a: string, c: char, b: string)
    requires IsDigit(c)
    ensures DigitsOf(a + [c] + b) == DigitsOf(a) + [DigitValue(c)] + DigitsOf(b)
  {
    DigitsConcat(a + [c], b);
    DigitsConcat(a, [c]);
    DigitsOfOne(c);
  }

  lemma DigitsAroundTwo(a: string, c: char, m: string, d: char, b: string)
    requires IsDigit(c) && IsDigit(d) && DigitsOf(m) == []
    ensures DigitsOf(a + [c] + m + [d] + b) == DigitsOf(a) + [DigitValue(c), DigitValue(d)] + DigitsOf(b)
  {
    DigitsAround(a + [c] + m, d, b);
    DigitsConcat(a + [c], m);
    DigitsConcat(a, [c]);
    DigitsOfOne(c);
  }

  /** Swapping two neighbouring digits of a valid number, with any separators between them,
      is detected exactly when they differ and are not 0 and 9. */
  lemma SwapDetected(a: string, c: char, m: string, d: char, b: string)
    requires IsDigit(c) && IsDigit(d) && DigitsOf(m) == []
    requires Validate(a + [c] + m + [d] + b)
    ensures Validate(a + [d] + m + [c] + b) <==> c == d || (c == '0' && d == '9') || (c == '9' && d == '0')
  {
    DigitsAroundTwo(a, c, m, d, b);
    DigitsAroundTwo(a, d, m, c, b);
    SumSwapped(DigitsOf(a), DigitValue(c), DigitValue(d), DigitsOf(b));
  }

  function CheckDigit(payload: seq<digit>): digit { (10 - Sum(payload + [0], 0) % 10) % 10 }

  lemma CompletesToTen(n: nat, d: digit)
    ensures (n + d) % 10 == 0 <==> d == (10 - n % 10) % 10
  {
  }

  /** Every text with a payload of the right length is completed by exactly one check digit,
      whatever separators it has. */
  lemma UniqueCheckDigit(card: string, c: char)
    requires IsDigit(c) && 12 <= |DigitsOf(card)| <= 18
    ensures Validate(card + [c]) <==> DigitValue(c) == CheckDigit(DigitsOf(card))
  {
    var payload, d := DigitsOf(card), DigitValue(c);
    DigitsConcat(card, [c]);
    DigitsOfOne(c);
    SumConcat(payload, [d], 0);
    SumConcat(payload, [0], 0);
    SumOfOne(d, 0);
    SumOfOne(0, 0);
    CompletesToTen(Sum(payload, 1), d);
  }
}
