/** The `hex` helper module: two lower-case digits per byte. */
module Hex {
  import opened Basics
  import opened Encoding

  /** Decoding can also panic: the slice `s[i..i + 2]` runs past the text or ends inside a
      character. */
  datatype Decoded = Ok(bytes: seq<byte>) | ParseError | Panic

  function NibbleChar(n: nat): (c: char)
    requires n < 16
    ensures NibbleValue(c) == Some(n)
  {
    if n < 10 then (48 + n) as char else (87 + n) as char
  }

  /** Both letter cases are accepted on input. */
  function NibbleValue(c: char): (r: Option<nat>)
    ensures r.Some? ==> r.value < 16
  {
    if '0' <= c <= '9' then Some(c as int - 48)
    else if 'a' <= c <= 'f' then Some(c as int - 87)
    else if 'A' <= c <= 'F' then Some(c as int - 55)
    else None
  }

  /** `u8::from_str_radix(_, 16)` on two characters, which also takes a leading plus sign. */
  function PairValue(c: char, d: char): (r: Option<byte>) {
    var hi, lo := NibbleValue(c), NibbleValue(d);
    if lo.None? then None
    else if c == '+' then Some(lo.value)
    else if hi.None? then None
    else Some(16 * hi.value + lo.value)
  }

  function Encode(bytes: seq<byte>): (s: string)
    ensures |s| == 2 * |bytes|
  {
    if bytes == [] then ""
    else [NibbleChar(bytes[0] / 16), NibbleChar(bytes[0] % 16)] + Encode(bytes[1..])
  }

  /** Pairs are decoded left to right; the first bad pair wins over a later panic. */
  function Decode(s: string): (r: Decoded) {
    if s == [] then Ok([])
    else if Slice(s, 0, 2).None? then Panic
    else
      match PairValue(s[0], s[1])
      case None => ParseError
      case Some(b) =>
        match Decode(s[2..])
        case Ok(bs) => Ok([b] + bs)
        case ParseError => ParseError
        case Panic => Panic
  }

  lemma {:induction false} EncodeIsHex(bytes: seq<byte>)
    ensures forall i :: 0 <= i < |Encode(bytes)| ==> IsCanonical(Encode(bytes)[i])
  {
    if bytes != [] { EncodeIsHex(bytes[1..]); }
  }

  lemma {:induction false} DecodeEncode(bytes: seq<byte>)
    ensures Decode(Encode(bytes)) == Ok(bytes)
  {
    if bytes != [] {
      DecodeEncode(bytes[1..]);
      EncodeIsHex(bytes[1..]);
      assert Encode(bytes)[2..] == Encode(bytes[1..]);
      assert bytes == [bytes[0]] + bytes[1..];
    }
  }

  function Upper(c: char): char { if 'a' <= c <= 'f' then c - 32 as char else c }

  function UpperAll(s: string): (r: string)
    ensures |r| == |s| && forall i :: 0 <= i < |s| ==> r[i] == Upper(s[i])
  {
    if s == [] then [] else [Upper(s[0])] + UpperAll(s[1..])
  }

  lemma UpperPair(b: byte)
    ensures var c, d := Upper(NibbleChar(b / 16)), Upper(NibbleChar(b % 16));
            PairValue(c, d) == Some(b) && !Continues(c) && !Continues(d)
  {
    var hi, lo := b / 16, b % 16;
    assert NibbleValue(Upper(NibbleChar(hi))) == Some(hi) && NibbleValue(Upper(NibbleChar(lo))) == Some(lo);
    assert b == 16 * hi + lo;
  }

  /** Capital digits are read as the small ones. */
  lemma {:induction false} CapitalsDecode(bytes: seq<byte>)
    ensures Decode(UpperAll(Encode(bytes))) == Ok(bytes)
  {
    if bytes != [] {
      var s := UpperAll(Encode(bytes));
      CapitalsDecode(bytes[1..]);
      UpperPair(bytes[0]);
      if |bytes| > 1 { UpperPair(bytes[1]); }
      assert s[2..] == UpperAll(Encode(bytes[1..])) by { assert Encode(bytes)[2..] == Encode(bytes[1..]); }
      assert s[0] == Upper(NibbleChar(bytes[0] / 16)) && s[1] == Upper(NibbleChar(bytes[0] % 16));
      assert bytes == [bytes[0]] + bytes[1..];
    }
  }

  /** A plus sign before one digit is read as that digit. */
  lemma PlusDecodes(c: char)
    requires NibbleValue(c).Some?
    ensures Decode(['+', c]) == Ok([NibbleValue(c).value])
  {
    assert ['+', c][2..] == [];
    assert Decode([]) == Ok([]);
  }

  /** The `n` pairs at the start of the text are all numbers. */
  ghost predicate PairsRead(s: string, n: nat) {
    2 * n <= |s| && forall i :: 0 <= i < n ==> PairValue(s[2 * i], s[2 * i + 1]).Some?
  }

  /** The slice of the pair at `n` fails: half a pair, or a character that does not end there. */
  predicate BadSlice(s: string, n: nat) {
    2 * n + 1 == |s| || (2 * n + 2 < |s| && Continues(s[2 * n + 2]))
  }

  lemma PairsShift(s: string, n: nat)
    requires |s| >= 2 && PairValue(s[0], s[1]).Some?
    ensures PairsRead(s, n + 1) <==> PairsRead(s[2..], n)
    ensures BadSlice(s, n + 1) <==> BadSlice(s[2..], n)
  {
    var rest := s[2..];
    if PairsRead(s, n + 1) {
      forall i | 0 <= i < n
        ensures PairValue(rest[2 * i], rest[2 * i + 1]).Some?
      {
        assert PairValue(s[2 * (i + 1)], s[2 * (i + 1) + 1]).Some?;
      }
    }
    if PairsRead(rest, n) {
      forall i | 0 <= i < n + 1
        ensures PairValue(s[2 * i], s[2 * i + 1]).Some?
      {
        if i > 0 { assert PairValue(rest[2 * (i - 1)], rest[2 * (i - 1) + 1]).Some?; }
      }
    }
  }

  /** Decoding panics exactly when some slice fails and every pair before it is a number. */
  lemma {:induction false} DecodePanicsIff(s: string)
    ensures Decode(s).Panic? <==> exists n: nat :: PairsRead(s, n) && BadSlice(s, n)
  {
    if |s| >= 2 && Slice(s, 0, 2).Some? && PairValue(s[0], s[1]).Some? {
      var rest := s[2..];
      DecodePanicsIff(rest);
      if Decode(rest).Panic? {
        var n: nat :| PairsRead(rest, n) && BadSlice(rest, n);
        PairsShift(s, n);
      }
      if n: nat :| PairsRead(s, n) && BadSlice(s, n) {
        assert n > 0;
        PairsShift(s, n - 1);
      }
    } else if s != [] && Slice(s, 0, 2).None? {
      assert PairsRead(s, 0) && BadSlice(s, 0);
    }
  }

  /** A text decodes exactly when it consists of pairs that are numbers, one for each byte. */
  lemma {:induction false} DecodesIff(s: string)
    ensures Decode(s).Ok? <==> |s| % 2 == 0 && PairsRead(s, |s| / 2)
    ensures Decode(s).Ok? ==> |s| == 2 * |Decode(s).bytes|
  {
    if |s| >= 2 && PairsRead(s, |s| / 2) { assert PairValue(s[2 * 0], s[2 * 0 + 1]).Some?; }
    if |s| >= 2 && PairValue(s[0], s[1]).Some? {
      DecodesIff(s[2..]);
      PairsShift(s, |s[2..]| / 2);
      if |s| % 2 == 0 && PairsRead(s, |s| / 2) && |s| > 2 { assert PairValue(s[2 * 1], s[2 * 1 + 1]).Some?; }
    }
  }

  predicate IsCanonical(c: char) { '0' <= c <= '9' || 'a' <= c <= 'f' }

  /** Encoding undoes decoding exactly on lower-case hexadecimal texts: capitals and a plus
      sign are accepted but not written. */
  lemma {:induction false} EncodeDecode(s: string)
    requires Decode(s).Ok?
    ensures Encode(Decode(s).bytes) == s <==> forall i :: 0 <= i < |s| ==> IsCanonical(s[i])
  {
    if s != [] {
      var rest, b := s[2..], PairValue(s[0], s[1]).value;
      var pair := [NibbleChar(b / 16), NibbleChar(b % 16)];
      EncodeDecode(rest);
      assert s == s[..2] + rest && s[..2] == [s[0], s[1]];
      assert Encode(Decode(s).bytes) == pair + Encode(Decode(rest).bytes) by {
        assert Decode(s).bytes[1..] == Decode(rest).bytes;
      }
      PairBack(s[0], s[1]);
      assert (pair + Encode(Decode(rest).bytes))[..2] == pair;
      assert (pair + Encode(Decode(rest).bytes))[2..] == Encode(Decode(rest).bytes);
      assert forall i :: 0 <= i < |rest| ==> rest[i] == s[i + 2];
      assert forall i :: 2 <= i < |s| ==> s[i] == rest[i - 2];
    }
  }

  lemma PairBack(c: char, d: char)
    requires PairValue(c, d).Some?
    ensures var b := PairValue(c, d).value;
            [NibbleChar(b / 16), NibbleChar(b % 16)] == [c, d] <==> IsCanonical(c) && IsCanonical(d)
  {
    var b := PairValue(c, d).value;
    var lo := NibbleValue(d).value;
    assert b % 16 == lo && (c != '+' ==> b / 16 == NibbleValue(c).value);
    assert [NibbleChar(b / 16), NibbleChar(b % 16)] == [c, d] <==> NibbleChar(b / 16) == c && NibbleChar(b % 16) == d;
  }
}
