/** The text that `serde_json::to_string` gives a list of transactions. Every writer takes
    the text that follows it, so that "what is written first can be read back first" is an
    equation between two calls. */
module LedgerJson {
  import opened Basics
  import opened Decimal
  import Text
  import Hex

  /** A float amount, known by the number serde_json writes for it: some text without a comma. */
  type Amount = t: string | ',' !in t witness "0.0"

  /** `amount` is the value the constructor takes and the record in the source omits. */
  datatype Transaction = Transaction(sender: string, receiver: string, amount: Amount, signature: Option<seq<byte>>)

  /** The escape table of JSON strings as serde_json writes it. */
  function Escape(c: char): (s: string)
    ensures s != [] && s[0] != '\"'
  {
    if c == '\"' then "\\\""
    else if c == '\\' then "\\\\"
    else if c as int == 8 then "\\b"
    else if c == '\t' then "\\t"
    else if c == '\n' then "\\n"
    else if c as int == 12 then "\\f"
    else if c == '\r' then "\\r"
    else if c as int < 32 then "\\u00" + [Hex.NibbleChar(c as int / 16), Hex.NibbleChar(c as int % 16)]
    else [c]
  }

  function Chars(s: string, rest: string): string {
    if s == [] then rest else Escape(s[0]) + Chars(s[1..], rest)
  }

  function Quoted(s: string, rest: string): string { "\"" + Chars(s, "\"" + rest) }

  function ByteItems(bs: seq<byte>, rest: string): string
    requires bs != []
    decreases |bs|, 0
  {
    Digits(bs[0]) + ByteTail(bs[1..], rest)
  }

  function ByteTail(bs: seq<byte>, rest: string): string
    decreases |bs|, 1
  {
    if bs == [] then "]" + rest else "," + ByteItems(bs, rest)
  }

  function Signature(sig: Option<seq<byte>>, rest: string): string {
    match sig
    case None => "null" + rest
    case Some(bs) => if bs == [] then "[]" + rest else "[" + ByteItems(bs, rest)
  }

  // The text around the fields.

  const SENDER := "{\"sender\":"
  const RECEIVER := ",\"receiver\":"
  const AMOUNT := ",\"amount\":"
  const SIGNATURE := ",\"signature\":"
  const CLOSE := "}"
  const QUOTE := "\""

  function Object(tx: Transaction, rest: string): string {
    SENDER + Quoted(tx.sender,
    RECEIVER + Quoted(tx.receiver,
    AMOUNT + (tx.amount +
    (SIGNATURE + Signature(tx.signature, CLOSE + rest)))))
  }

  function Objects(txs: seq<Transaction>, rest: string): string
    requires txs != []
  {
    Object(txs[0], if |txs| == 1 then "]" + rest else "," + Objects(txs[1..], rest))
  }

  /** The JSON array of `txs`, followed by `rest`. */
  function Array(txs: seq<Transaction>, rest: string): string {
    "[" + if txs == [] then "]" + rest else Objects(txs, rest)
  }

  // Reading back: each writer determines both what it wrote and what follows.

  /** One character of a JSON string body, by section 7 of RFC 8259, and what follows it. */
  function ReadChar(s: string): Option<(char, string)> {
    if s == [] || s[0] == '\"' || s[0] as int < 32 then None
    else if s[0] != '\\' then Some((s[0], s[1..]))
    else if |s| < 2 then None
    else
      match s[1]
      case '\"' => Some(('\"', s[2..]))
      case '\\' => Some(('\\', s[2..]))
      case '/' => Some(('/', s[2..]))
      case 'b' => Some((8 as char, s[2..]))
      case 'f' => Some((12 as char, s[2..]))
      case 'n' => Some((10 as char, s[2..]))
      case 'r' => Some((13 as char, s[2..]))
      case 't' => Some((9 as char, s[2..]))
      case 'u' =>
        if |s| < 6 then None
        else
          var high, low := Hex.NibbleValue(s[4]), Hex.NibbleValue(s[5]);
          if s[2] == '0' && s[3] == '0' && high.Some? && low.Some?
          then Some(((16 * high.value + low.value) as char, s[6..]))
          else None
      case _ => None
  }

  /** The string up to the closing quote, and what follows the quote. */
  function ReadString(s: string): Option<(string, string)>
    decreases |s|
  {
    if s != [] && s[0] == '\"' then Some(("", s[1..]))
    else
      match ReadChar(s)
      case None => None
      case Some((c, rest)) =>
        if |rest| >= |s| then None
        else
          (match ReadString(rest)
           case None => None
           case Some((text, after)) => Some(([c] + text, after)))
  }

  /** The quote, the backslash and five control characters have short escapes, the other control
      characters long ones, and nothing else is escaped. */
  lemma EscapeLength(c: char)
    ensures |Escape(c)| == (if c as int == 34 || c as int == 92 || 8 <= c as int <= 10 || 12 <= c as int <= 13 then 2
                            else if c as int < 32 then 6 else 1)
  {
  }

  lemma EscapeReads(c: char, rest: string)
    ensures ReadChar(Escape(c) + rest) == Some((c, rest))
  {
    var e, s := Escape(c), Escape(c) + rest;
    assert forall i :: 0 <= i < |e| ==> s[i] == e[i];
    assert s[|e|..] == rest;
  }

  /** A JSON reader gets the string back, and stops where it ends. */
  lemma {:induction false} CharsRead(s: string, rest: string)
    ensures ReadString(Chars(s, "\"" + rest)) == Some((s, rest))
  {
    if s == [] {
      assert ("\"" + rest)[1..] == rest;
    } else {
      var tail := Chars(s[1..], "\"" + rest);
      CharsRead(s[1..], rest);
      EscapeReads(s[0], tail);
      assert (Escape(s[0]) + tail)[0] == Escape(s[0])[0];
      assert s == [s[0]] + s[1..];
    }
  }

  lemma CharsUnique(s: string, t: string, x: string, y: string)
    requires Chars(s, "\"" + x) == Chars(t, "\"" + y)
    ensures s == t && x == y
  {
    CharsRead(s, x);
    CharsRead(t, y);
  }

  lemma QuotedUnique(s: string, t: string, x: string, y: string)
    requires Quoted(s, x) == Quoted(t, y)
    ensures s == t && x == y
  {
    Text.StripPrefix("\"", Chars(s, "\"" + x), Chars(t, "\"" + y));
    CharsUnique(s, t, x, y);
  }

  /** A comma-free text followed by a comma has a unique end. */
  lemma {:induction false} AmountUnique(a: string, b: string, x: string, y: string)
    requires ',' !in a && ',' !in b && a + x == b + y
    requires x != [] && x[0] == ',' && y != [] && y[0] == ','
    ensures a == b && x == y
  {
    assert (a + x)[0] == (b + y)[0];
    if a != [] && b != [] {
      assert a[1..] + x == (a + x)[1..] && b[1..] + y == (b + y)[1..];
      AmountUnique(a[1..], b[1..], x, y);
      assert a == [a[0]] + a[1..] && b == [b[0]] + b[1..];
    } else {
      assert |a| == |b|;
      assert a + x == x && b + y == y;
    }
  }

  lemma {:induction false} ByteItemsUnique(a: seq<byte>, b: seq<byte>, x: string, y: string)
    requires a != [] && b != [] && ByteItems(a, x) == ByteItems(b, y)
    ensures a == b && x == y
  {
    var s, t := ByteTail(a[1..], x), ByteTail(b[1..], y);
    assert s[0] == if a[1..] == [] then ']' else ',';
    assert t[0] == if b[1..] == [] then ']' else ',';
    DigitsEnd(Digits(a[0]), s, Digits(b[0]), t);
    DigitsInjective(a[0], b[0]);
    if a[1..] == [] {
      Text.StripPrefix("]", x, y);
    } else {
      Text.StripPrefix(",", ByteItems(a[1..], x), ByteItems(b[1..], y));
      ByteItemsUnique(a[1..], b[1..], x, y);
    }
    assert a == [a[0]] + a[1..] && b == [b[0]] + b[1..];
  }

  lemma SignatureUnique(a: Option<seq<byte>>, b: Option<seq<byte>>, x: string, y: string)
    requires Signature(a, x) == Signature(b, y)
    ensures a == b && x == y
  {
    var s, t := Signature(a, x), Signature(b, y);
    assert s[0] == if a.None? then 'n' else '[';
    assert t[0] == if b.None? then 'n' else '[';
    if a.None? {
      Text.StripPrefix("null", x, y);
    } else {
      assert s[1] == if a.value == [] then ']' else Digits(a.value[0])[0];
      assert t[1] == if b.value == [] then ']' else Digits(b.value[0])[0];
      if a.value == [] {
        Text.StripPrefix("[]", x, y);
      } else {
        Text.StripPrefix("[", ByteItems(a.value, x), ByteItems(b.value, y));
        ByteItemsUnique(a.value, b.value, x, y);
      }
    }
  }

  lemma ObjectUnique(a: Transaction, b: Transaction, x: string, y: string)
    requires Object(a, x) == Object(b, y)
    ensures a == b && x == y
  {
    var s3, t3 := Signature(a.signature, CLOSE + x), Signature(b.signature, CLOSE + y);
    var s2, t2 := a.amount + (SIGNATURE + s3), b.amount + (SIGNATURE + t3);
    var s1, t1 := Quoted(a.receiver, AMOUNT + s2), Quoted(b.receiver, AMOUNT + t2);
    var s0, t0 := Quoted(a.sender, RECEIVER + s1), Quoted(b.sender, RECEIVER + t1);
    Text.StripPrefix(SENDER, s0, t0);
    QuotedUnique(a.sender, b.sender, RECEIVER + s1, RECEIVER + t1);
    Text.StripPrefix(RECEIVER, s1, t1);
    QuotedUnique(a.receiver, b.receiver, AMOUNT + s2, AMOUNT + t2);
    Text.StripPrefix(AMOUNT, s2, t2);
    AmountUnique(a.amount, b.amount, SIGNATURE + s3, SIGNATURE + t3);
    Text.StripPrefix(SIGNATURE, s3, t3);
    SignatureUnique(a.signature, b.signature, CLOSE + x, CLOSE + y);
    Text.StripPrefix(CLOSE, x, y);
  }

  lemma {:induction false} ObjectsUnique(a: seq<Transaction>, b: seq<Transaction>, x: string, y: string)
    requires a != [] && b != [] && Objects(a, x) == Objects(b, y)
    ensures a == b && x == y
  {
    var s := if |a| == 1 then "]" + x else "," + Objects(a[1..], x);
    var t := if |b| == 1 then "]" + y else "," + Objects(b[1..], y);
    ObjectUnique(a[0], b[0], s, t);
    assert s[0] == t[0];
    if |a| == 1 {
      Text.StripPrefix("]", x, y);
    } else {
      Text.StripPrefix(",", Objects(a[1..], x), Objects(b[1..], y));
      ObjectsUnique(a[1..], b[1..], x, y);
    }
    assert a == [a[0]] + a[1..] && b == [b[0]] + b[1..];
  }

  lemma ObjectsHead(txs: seq<Transaction>, rest: string)
    requires txs != []
    ensures Objects(txs, rest) != [] && Objects(txs, rest)[0] == '{'
  {
  }

  /** A JSON array is self-delimiting: it determines its elements and where it ends. */
  lemma ArrayUnique(a: seq<Transaction>, b: seq<Transaction>, x: string, y: string)
    requires Array(a, x) == Array(b, y)
    ensures a == b && x == y
  {
    var s := if a == [] then "]" + x else Objects(a, x);
    var t := if b == [] then "]" + y else Objects(b, y);
    Text.StripPrefix("[", s, t);
    if a != [] { ObjectsHead(a, x); }
    if b != [] { ObjectsHead(b, y); }
    if a == [] {
      Text.StripPrefix("]", x, y);
    } else {
      ObjectsUnique(a, b, x, y);
    }
  }

  // What follows a value is simply appended to its text.

  lemma {:induction false} CharsAppend(s: string, x: string, y: string)
    ensures Chars(s, x + y) == Chars(s, x) + y
  {
    if s != [] {
      CharsAppend(s[1..], x, y);
      assert Escape(s[0]) + (Chars(s[1..], x) + y) == Escape(s[0]) + Chars(s[1..], x) + y;
    }
  }

  lemma QuotedAppend(s: string, x: string, y: string)
    ensures Quoted(s, x + y) == Quoted(s, x) + y
  {
    CharsAppend(s, "\"" + x, y);
    assert "\"" + (x + y) == ("\"" + x) + y;
    assert "\"" + (Chars(s, "\"" + x) + y) == "\"" + Chars(s, "\"" + x) + y;
  }

  lemma {:induction false} ByteItemsAppend(bs: seq<byte>, x: string, y: string)
    requires bs != []
    ensures ByteItems(bs, x + y) == ByteItems(bs, x) + y
  {
    var d := Digits(bs[0]);
    if |bs| == 1 {
      assert d + ("]" + (x + y)) == d + ("]" + x) + y;
    } else {
      ByteItemsAppend(bs[1..], x, y);
      var r := ByteItems(bs[1..], x);
      assert d + ("," + (r + y)) == d + ("," + r) + y;
    }
  }

  lemma SignatureAppend(sig: Option<seq<byte>>, x: string, y: string)
    ensures Signature(sig, x + y) == Signature(sig, x) + y
  {
    if sig.None? {
      assert "null" + (x + y) == ("null" + x) + y;
    } else if sig.value == [] {
      assert "[]" + (x + y) == ("[]" + x) + y;
    } else {
      ByteItemsAppend(sig.value, x, y);
      assert "[" + (ByteItems(sig.value, x) + y) == ("[" + ByteItems(sig.value, x)) + y;
    }
  }

  lemma PrefixAppend(p: string, x: string, y: string)
    ensures p + (x + y) == (p + x) + y
  {
  }

  lemma ObjectAppend(tx: Transaction, x: string, y: string)
    ensures Object(tx, x + y) == Object(tx, x) + y
  {
    var s3 := Signature(tx.signature, CLOSE + x);
    var s2 := tx.amount + (SIGNATURE + s3);
    var s1 := Quoted(tx.receiver, AMOUNT + s2);
    var s0 := Quoted(tx.sender, RECEIVER + s1);
    PrefixAppend(CLOSE, x, y);
    SignatureAppend(tx.signature, CLOSE + x, y);
    PrefixAppend(SIGNATURE, s3, y);
    PrefixAppend(tx.amount, SIGNATURE + s3, y);
    PrefixAppend(AMOUNT, s2, y);
    QuotedAppend(tx.receiver, AMOUNT + s2, y);
    PrefixAppend(RECEIVER, s1, y);
    QuotedAppend(tx.sender, RECEIVER + s1, y);
    PrefixAppend(SENDER, s0, y);
  }

  lemma {:induction false} ObjectsAppend(txs: seq<Transaction>, x: string, y: string)
    requires txs != []
    ensures Objects(txs, x + y) == Objects(txs, x) + y
  {
    if |txs| == 1 {
      PrefixAppend("]", x, y);
      ObjectAppend(txs[0], "]" + x, y);
    } else {
      ObjectsAppend(txs[1..], x, y);
      PrefixAppend(",", Objects(txs[1..], x), y);
      ObjectAppend(txs[0], "," + Objects(txs[1..], x), y);
    }
  }

  lemma ArrayAppend(txs: seq<Transaction>, x: string)
    ensures Array(txs, x) == Array(txs, "") + x
  {
    assert "" + x == x;
    if txs == [] {
      PrefixAppend("]", "", x);
      PrefixAppend("[", "]", x);
    } else {
      ObjectsAppend(txs, "", x);
      PrefixAppend("[", Objects(txs, ""), x);
    }
  }

  /** A text without quotes, backslashes and control characters is written as it is. */
  predicate Plain(s: string) { forall i :: 0 <= i < |s| ==> s[i] != '\"' && s[i] != '\\' && s[i] as int >= 32 }

  lemma {:induction false} PlainChars(s: string, rest: string)
    requires Plain(s)
    ensures Chars(s, rest) == s + rest
  {
    if s == [] {
      assert s + rest == rest;
    } else {
      PlainChars(s[1..], rest);
      assert Escape(s[0]) == [s[0]];
      PrefixAppend([s[0]], s[1..], rest);
      assert s == [s[0]] + s[1..];
    }
  }

  lemma PlainQuoted(s: string, rest: string)
    requires Plain(s)
    ensures Quoted(s, rest) == "\"" + (s + ("\"" + rest))
  {
    PlainChars(s, "\"" + rest);
  }

  /** What the text of a transaction looks like, piece by piece. */
  lemma PlainText(tx: Transaction)
    requires Plain(tx.sender) && Plain(tx.receiver)
    ensures Object(tx, "")
            == SENDER + (QUOTE + (tx.sender + (QUOTE +
               (RECEIVER + (QUOTE + (tx.receiver + (QUOTE +
               (AMOUNT + (tx.amount + (SIGNATURE + Signature(tx.signature, CLOSE)))))))))))
  {
    hide Quoted, Signature;
    assert CLOSE + "" == CLOSE;
    var s2 := tx.amount + (SIGNATURE + Signature(tx.signature, CLOSE));
    PlainQuoted(tx.receiver, AMOUNT + s2);
    PlainQuoted(tx.sender, RECEIVER + Quoted(tx.receiver, AMOUNT + s2));
  }

  lemma SampleSignature()
    ensures Signature(Some([7, 12]), "") == "[7,12]" && Signature(None, "") == "null"
  {
    assert Digits(12) == "12" && Digits(7) == "7";
    assert [7, 12][1..] == [12] && [12][1..] == [];
    assert ByteItems([12], "") == "12]";
  }
}
