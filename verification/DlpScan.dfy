/** The dictionary scan: greedy search for non-overlapping keyword occurrences. */
module DlpScan {
  import opened Basics
  import opened Encoding

  /** UTF-8 synchronises itself: bytes that spell a text begin and end between characters. */
  lemma OccursAtBoundaries(t: string, key: string, at: nat)
    requires Utf8(t) && Utf8(key) && key != "" && Occurs(t, key, at)
    ensures Boundary(t, at) && Boundary(t, at + |key|)
  {
    assert t[at] == key[0];
    CutAtBoundary(t, at);
    RestOfPrefix(t[at..], key);
    assert t[at..][|key|..] == t[at + |key|..];
  }

  /** `to_lowercase`. */
  type Lowering = string -> string

  ghost predicate Lawful(lower: Lowering) { forall t :: Utf8(t) ==> Utf8(lower(t)) }

  /** Every offset between two characters of the lowered text lies between two characters of
      the text. */
  predicate Aligned(text: string, low: string) {
    forall i :: 0 <= i <= |low| && Boundary(low, i) ==> i <= |text| && Boundary(text, i)
  }

  /** Lowering keeps every offset of the text. It does for ASCII, and for any text whose
      characters are lowered one by one without a change of width. */
  ghost predicate KeepsOffsets(lower: Lowering, text: string) {
    var low := lower(text);
    && Aligned(text, low) && |low| <= |text|
    && forall i, j :: 0 <= i <= j <= |low| && Boundary(low, i) && Boundary(low, j) ==>
                        lower(text[i..j]) == low[i..j]
  }

  predicate Ascii(t: string) { forall i :: 0 <= i < |t| ==> t[i] < '\U{80}' }

  function AsciiLower(c: char): char { if 'A' <= c <= 'Z' then c + 32 as char else c }

  predicate Capital(c: char) { 'A' <= c <= 'Z' }

  /** Two characters are the same but for case. */
  predicate SameLetter(c: char, d: char) {
    c == d || (Capital(c) && d as int == c as int + 32) || (Capital(d) && c as int == d as int + 32)
  }

  lemma LowerIgnoresCase(c: char, d: char)
    ensures AsciiLower(c) == AsciiLower(d) <==> SameLetter(c, d)
  {
  }

  /** What lowering does to ASCII texts; of others nothing is said. */
  ghost predicate LowersAscii(lower: Lowering) {
    forall s :: Ascii(s) ==> |lower(s)| == |s| && forall i :: 0 <= i < |s| ==> lower(s)[i] == AsciiLower(s[i])
  }

  lemma {:induction false} AsciiIsUtf8(t: string)
    requires Ascii(t)
    ensures Utf8(t)
  {
    if t != "" { AsciiIsUtf8(t[1..]); }
  }

  /** Lowering keeps the offsets of every ASCII text. */
  lemma AsciiKeepsOffsets(lower: Lowering, text: string)
    requires LowersAscii(lower) && Ascii(text)
    ensures KeepsOffsets(lower, text)
  {
    forall i, j | 0 <= i <= j <= |text|
      ensures lower(text[i..j]) == lower(text)[i..j]
    {
      assert Ascii(text[i..j]);
      assert forall k :: 0 <= k < j - i ==> lower(text[i..j])[k] == AsciiLower(text[i..j][k]) == lower(text)[i + k];
    }
  }

  predicate Occurs(text: string, word: string, at: nat) {
    at + |word| <= |text| && text[at..at + |word|] == word
  }

  /** `str::find` on the text from `from` on: the first occurrence, as an absolute offset. */
  function Find(text: string, word: string, from: nat): (r: Option<nat>)
    requires from <= |text|
    ensures r.Some? ==> from <= r.value && Occurs(text, word, r.value)
                        && forall i :: from <= i < r.value ==> !Occurs(text, word, i)
    ensures r.None? ==> forall i :: from <= i ==> !Occurs(text, word, i)
    decreases |text| - from
  {
    if Occurs(text, word, from) then Some(from)
    else if from == |text| then None
    else Find(text, word, from + 1)
  }

  /** The offsets the scan reports from `from` on. */
  function Greedy(text: string, word: string, from: nat): (g: seq<nat>)
    requires from <= |text| && word != ""
    ensures forall k :: 0 <= k < |g| ==> from <= g[k] && Occurs(text, word, g[k])
    ensures forall j, k :: 0 <= j < k < |g| ==> g[j] + |word| <= g[k]
    decreases |text| - from
  {
    match Find(text, word, from)
    case None => []
    case Some(i) => [i] + Greedy(text, word, i + |word|)
  }

  /** Occurrences no two of which share a character. */
  ghost predicate Disjoint(text: string, word: string, at: set<nat>) {
    && (forall i :: i in at ==> Occurs(text, word, i))
    && (forall i, j :: i in at && j in at && i < j ==> i + |word| <= j)
  }

  function Offsets(s: seq<nat>): set<nat> { set i | i in s }

  lemma {:induction false} IncreasingSize(s: seq<nat>)
    requires forall j, k :: 0 <= j < k < |s| ==> s[j] < s[k]
    ensures |Offsets(s)| == |s|
  {
    if s == [] {
      assert Offsets(s) == {};
    } else {
      var n := |s| - 1;
      IncreasingSize(s[..n]);
      assert s == s[..n] + [s[n]];
      assert Offsets(s) == Offsets(s[..n]) + {s[n]};
      assert s[n] !in Offsets(s[..n]);
    }
  }

  lemma SpacedApart(g: seq<nat>, n: nat)
    requires forall j, k :: 0 <= j < k < |g| ==> g[j] + n <= g[k]
    ensures forall i, j :: i in Offsets(g) && j in Offsets(g) && i < j ==> i + n <= j
  {
    forall i, j | i in Offsets(g) && j in Offsets(g) && i < j
      ensures i + n <= j
    {
      var a :| 0 <= a < |g| && g[a] == i;
      var b :| 0 <= b < |g| && g[b] == j;
      assert a < b;
    }
  }

  /** The scan's own occurrences are disjoint, and it reports each once. */
  lemma GreedyIsDisjoint(text: string, word: string, from: nat)
    requires from <= |text| && word != ""
    ensures Disjoint(text, word, Offsets(Greedy(text, word, from)))
    ensures |Offsets(Greedy(text, word, from))| == |Greedy(text, word, from)|
  {
    hide Greedy, Find, Occurs;
    var g := Greedy(text, word, from);
    SpacedApart(g, |word|);
    IncreasingSize(g);
  }

  /** At most one of a disjoint family starts within a word's length of `i`. */
  lemma AtMostOne(text: string, word: string, at: set<nat>, i: nat) returns (later: set<nat>)
    requires word != "" && Disjoint(text, word, at) && forall x :: x in at ==> i <= x
    ensures later <= at && |at| <= |later| + 1 && forall x :: x in later ==> i + |word| <= x
  {
    if y :| y in at && y < i + |word| {
      later := at - {y};
    } else {
      later := at;
    }
  }

  /** Greedy is optimal: no disjoint family of occurrences is larger. */
  lemma {:induction false} GreedyIsMaximum(text: string, word: string, from: nat, at: set<nat>)
    requires from <= |text| && word != ""
    requires Disjoint(text, word, at) && forall i :: i in at ==> from <= i
    ensures |at| <= |Greedy(text, word, from)|
    decreases |text| - from
  {
    var first := Find(text, word, from);
    if first.None? {
      assert at == {};
    } else {
      var later := AtMostOne(text, word, at, first.value);
      GreedyIsMaximum(text, word, first.value + |word|, later);
    }
  }

  /** The scan from offset `from` on. `None` is a panic: a slice that is no text. */
  function ScanFrom(text: string, low: string, key: string, n: nat, from: nat): Option<seq<string>>
    requires 0 < n
    decreases if from <= |low| then |low| - from + 1 else 0
  {
    if Slice(low, from, |low|).None? then None
    else
      match Find(low, key, from)
      case None => Some([])
      case Some(i) =>
        var exact := Slice(text, i, i + n);
        if exact.None? then None else Prepend(exact.value, ScanFrom(text, low, key, n, i + n))
  }

  function Prepend(x: string, rest: Option<seq<string>>): Option<seq<string>> {
    if rest.None? then None else Some([x] + rest.value)
  }

  /** What a scan of `text` for `word` reports, ignoring case. */
  function Outcome(lower: Lowering, text: string, word: string): Option<seq<string>>
    requires word != ""
  {
    ScanFrom(text, lower(text), lower(word), |word|, 0)
  }

  /** The original text at the offsets found. */
  function Excerpts(text: string, n: nat, at: seq<nat>): seq<string>
    requires forall k :: 0 <= k < |at| ==> at[k] + n <= |text|
  {
    if at == [] then [] else [text[at[0]..at[0] + n]] + Excerpts(text, n, at[1..])
  }

  lemma ScanFromNext(text: string, low: string, key: string, n: nat, from: nat)
    requires 0 < n && n <= |key| && from <= |low| && Boundary(low, from)
    requires var next := Find(low, key, from);
             next.Some? ==> Slice(text, next.value, next.value + n).Some?
    ensures var next := Find(low, key, from);
            ScanFrom(text, low, key, n, from) ==
              if next.None? then Some([])
              else Prepend(text[next.value..next.value + n], ScanFrom(text, low, key, n, next.value + n))
  {
  }

  lemma ExcerptsNext(text: string, low: string, key: string, from: nat)
    requires key != "" && from <= |low| <= |text|
    ensures var next := Find(low, key, from);
            Excerpts(text, |key|, Greedy(low, key, from)) ==
              if next.None? then []
              else [text[next.value..next.value + |key|]]
                   + Excerpts(text, |key|, Greedy(low, key, next.value + |key|))
  {
    hide Find;
    var next := Find(low, key, from);
    var g := Greedy(low, key, from);
    if next.Some? {
      var rest := Greedy(low, key, next.value + |key|);
      assert g == [next.value] + rest;
      assert g[1..] == rest;
    }
  }

  /** Where offsets are kept the scan does not panic, and reports the greedy occurrences. */
  lemma {:induction false} ScanIsGreedy(text: string, low: string, key: string, from: nat)
    requires Utf8(low) && Utf8(key) && key != "" && Aligned(text, low)
    requires from <= |low| <= |text| && Boundary(low, from)
    ensures ScanFrom(text, low, key, |key|, from) == Some(Excerpts(text, |key|, Greedy(low, key, from)))
    decreases |low| - from
  {
    hide ScanFrom, Excerpts, Greedy, Utf8, Find, Boundary, Occurs;
    var next := Find(low, key, from);
    if next.Some? {
      OccursAtBoundaries(low, key, next.value);
      ScanIsGreedy(text, low, key, next.value + |key|);
    }
    ScanFromNext(text, low, key, |key|, from);
    ExcerptsNext(text, low, key, from);
  }

  lemma FirstSlice(text: string, low: string, key: string, n: nat)
    requires key <= low && 0 < n && !(n <= |text| && Boundary(text, n))
    ensures ScanFrom(text, low, key, n, 0).None?
  {
    assert Occurs(low, key, 0);
  }

  lemma AlignedIsGreedy(lower: Lowering, text: string, word: string)
    requires Utf8(lower(text)) && Aligned(text, lower(text))
    requires word != "" && Utf8(lower(word)) && |lower(word)| == |word|
    ensures |lower(text)| <= |text|
    ensures Outcome(lower, text, word)
            == Some(Excerpts(text, |word|, Greedy(lower(text), lower(word), 0)))
  {
    hide ScanFrom, Greedy, Find, Excerpts;
    assert Boundary(lower(text), |lower(text)|);
    ScanIsGreedy(text, lower(text), lower(word), 0);
  }

  /** The lowered word, cut to the length of the word, is still a text. The source slices by
      the length of the word what it found for the lowered one. */
  predicate Fits(lower: Lowering, word: string) {
    |word| <= |lower(word)| && Boundary(lower(word), |word|)
  }

  lemma {:induction false} FittingScans(text: string, low: string, key: string, n: nat, from: nat)
    requires Utf8(low) && Utf8(key) && Aligned(text, low)
    requires 0 < n <= |key| && Boundary(key, n) && from <= |low| && Boundary(low, from)
    ensures ScanFrom(text, low, key, n, from).Some?
    decreases |low| - from
  {
    hide ScanFrom, Utf8, Find, Boundary;
    var next := Find(low, key, from);
    if next.Some? {
      CutAtBoundary(key, n);
      assert Occurs(low, key[..n], next.value) by {
        assert low[next.value..next.value + n] == low[next.value..next.value + |key|][..n];
      }
      OccursAtBoundaries(low, key[..n], next.value);
      FittingScans(text, low, key, n, next.value + n);
    }
    ScanFromNext(text, low, key, n, from);
  }

  /** A word that fits makes no scan of an aligned text panic. */
  lemma AlignedNeverPanics(lower: Lowering, text: string, word: string)
    requires Lawful(lower) && Utf8(text) && Aligned(text, lower(text))
    requires word != "" && Utf8(word) && Fits(lower, word)
    ensures Outcome(lower, text, word).Some?
  {
    FittingScans(text, lower(text), lower(word), |word|, 0);
  }

  lemma MisalignedPanics(lower: Lowering, text: string) returns (w: string)
    requires Utf8(lower(text)) && !Aligned(text, lower(text))
    requires forall t :: t <= lower(text) && Utf8(t) ==> lower(t) == t
    ensures w != "" && Utf8(w) && Fits(lower, w) && Outcome(lower, text, w).None?
  {
    hide ScanFrom, Utf8;
    var low := lower(text);
    var i :| 0 <= i <= |low| && Boundary(low, i) && !(i <= |text| && Boundary(text, i));
    w := low[..i];
    CutAtBoundary(low, i);
    assert lower(w) == w;
    FirstSlice(text, low, w, i);
  }

  /** No word that fits makes the scan of a text panic exactly when the offsets of the lowered
      text are offsets of the text. */
  lemma NeverPanicsIff(lower: Lowering, text: string)
    requires Lawful(lower) && Utf8(text)
    requires forall t :: t <= lower(text) && Utf8(t) ==> lower(t) == t
    ensures Aligned(text, lower(text)) <==>
            forall w :: w != "" && Utf8(w) && Fits(lower, w) ==> Outcome(lower, text, w).Some?
  {
    hide Outcome, Utf8, Fits, Aligned;
    if Aligned(text, lower(text)) {
      forall w | w != "" && Utf8(w) && Fits(lower, w)
        ensures Outcome(lower, text, w).Some?
      {
        AlignedNeverPanics(lower, text, w);
      }
    } else {
      var w := MisalignedPanics(lower, text);
    }
  }

  /** A word makes the scan of no aligned text panic exactly when it fits. */
  lemma WordNeverPanicsIff(lower: Lowering, word: string)
    requires Lawful(lower) && word != "" && Utf8(word)
    requires lower(word) != "" && lower(lower(word)) == lower(word)
    ensures Fits(lower, word) <==>
            forall t :: Utf8(t) && Aligned(t, lower(t)) ==> Outcome(lower, t, word).Some?
  {
    hide ScanFrom, Find;
    if Fits(lower, word) {
      forall t | Utf8(t) && Aligned(t, lower(t))
        ensures Outcome(lower, t, word).Some?
      {
        AlignedNeverPanics(lower, t, word);
      }
    } else {
      var key := lower(word);
      FirstSlice(key, key, key, |word|);
      assert Utf8(key) && Aligned(key, lower(key)) && Outcome(lower, key, word).None?;
    }
  }

  /** The Turkish capital I with a dot grows by a byte when lowered; its scan for "i" panics. */
  lemma DottedCapitalPanics(lower: Lowering)
    requires lower("\U{C4}\U{B0}") == "i\U{CC}\U{87}" && lower("i") == "i"
    ensures Outcome(lower, "\U{C4}\U{B0}", "i").None?
  {
    FirstSlice("\U{C4}\U{B0}", "i\U{CC}\U{87}", "i", 1);
  }

  /** The same letter as a keyword: its lowered form, a text with all offsets kept, panics. */
  lemma DottedKeywordPanics(lower: Lowering)
    requires lower("\U{C4}\U{B0}") == "i\U{CC}\U{87}" && lower("i\U{CC}\U{87}") == "i\U{CC}\U{87}"
    ensures Aligned("i\U{CC}\U{87}", lower("i\U{CC}\U{87}"))
    ensures Outcome(lower, "i\U{CC}\U{87}", "\U{C4}\U{B0}").None?
  {
    FirstSlice("i\U{CC}\U{87}", "i\U{CC}\U{87}", "i\U{CC}\U{87}", 2);
  }

  lemma {:induction false} ExcerptsLength(text: string, n: nat, at: seq<nat>)
    requires forall k :: 0 <= k < |at| ==> at[k] + n <= |text|
    ensures |Excerpts(text, n, at)| == |at|
  {
    if at != [] { ExcerptsLength(text, n, at[1..]); }
  }

  lemma {:induction false} ExcerptsMatch(lower: Lowering, text: string, key: string, at: seq<nat>, h: string)
    requires KeepsOffsets(lower, text) && Utf8(lower(text)) && Utf8(key) && key != ""
    requires forall k :: 0 <= k < |at| ==> at[k] + |key| <= |text| && Occurs(lower(text), key, at[k])
    requires h in Excerpts(text, |key|, at)
    ensures lower(h) == key
  {
    if h == text[at[0]..at[0] + |key|] {
      OccursAtBoundaries(lower(text), key, at[0]);
      assert lower(h) == lower(text)[at[0]..at[0] + |key|];
    } else {
      ExcerptsMatch(lower, text, key, at[1..], h);
    }
  }

  /** The number of hits is the largest possible number of disjoint case-insensitive
      occurrences, and every hit is one. */
  lemma HitsAreMaximum(lower: Lowering, text: string, word: string) returns (hits: seq<string>)
    requires Utf8(lower(text)) && KeepsOffsets(lower, text)
    requires word != "" && Utf8(lower(word)) && |lower(word)| == |word|
    ensures Outcome(lower, text, word) == Some(hits)
    ensures forall at :: Disjoint(lower(text), lower(word), at) ==> |at| <= |hits|
    ensures exists at :: Disjoint(lower(text), lower(word), at) && |at| == |hits|
    ensures forall h :: h in hits ==> lower(h) == lower(word)
  {
    var low, key := lower(text), lower(word);
    AlignedIsGreedy(lower, text, word);
    var g := Greedy(low, key, 0);
    hits := Excerpts(text, |key|, g);
    ExcerptsLength(text, |key|, g);
    GreedyIsDisjoint(low, key, 0);
    assert Disjoint(low, key, Offsets(g)) && |Offsets(g)| == |g|;
    forall at | Disjoint(low, key, at)
      ensures |at| <= |g|
    {
      GreedyIsMaximum(low, key, 0, at);
    }
    forall h | h in hits
      ensures lower(h) == key
    {
      ExcerptsMatch(lower, text, key, g, h);
    }
  }

  /** In ASCII that is so for every text and every keyword. */
  lemma AsciiHitsAreMaximum(lower: Lowering, text: string, word: string) returns (hits: seq<string>)
    requires LowersAscii(lower) && Ascii(text) && Ascii(word) && word != ""
    ensures Outcome(lower, text, word) == Some(hits)
    ensures forall at :: Disjoint(lower(text), lower(word), at) ==> |at| <= |hits|
    ensures exists at :: Disjoint(lower(text), lower(word), at) && |at| == |hits|
    ensures forall h :: h in hits ==> lower(h) == lower(word)
  {
    AsciiKeepsOffsets(lower, text);
    AsciiIsUtf8(lower(text));
    AsciiIsUtf8(lower(word));
    hits := HitsAreMaximum(lower, text, word);
  }

  /** The scanning loop. */
  method Scan(lower: Lowering, text: string, word: string) returns (r: Option<seq<string>>)
    requires word != ""
    ensures r == Outcome(lower, text, word)
  {
    hide Find, Boundary;
    var low, key := lower(text), lower(word);
    var hits, pos := [], 0;
    JoinedFirst(Outcome(lower, text, word));
    while true
      invariant Outcome(lower, text, word) == Joined(hits, ScanFrom(text, low, key, |word|, pos))
      decreases if pos <= |low| then |low| - pos + 1 else 0
    {
      if Slice(low, pos, |low|).None? { return None; }
      var next := Find(low, key, pos);
      if next.None? {
        JoinedLast(hits);
        return Some(hits);
      }
      var exact := Slice(text, next.value, next.value + |word|);
      if exact.None? { return None; }
      JoinedNext(hits, exact.value, ScanFrom(text, low, key, |word|, next.value + |word|));
      hits := hits + [exact.value];
      pos := next.value + |word|;
    }
  }

  function Joined(hits: seq<string>, rest: Option<seq<string>>): Option<seq<string>> {
    if rest.None? then None else Some(hits + rest.value)
  }

  lemma JoinedFirst(rest: Option<seq<string>>)
    ensures Joined([], rest) == rest
  {
    if rest.Some? { assert [] + rest.value == rest.value; }
  }

  lemma JoinedLast(hits: seq<string>)
    ensures Joined(hits, Some([])) == Some(hits)
  {
    assert hits + [] == hits;
  }

  lemma JoinedNext(hits: seq<string>, x: string, rest: Option<seq<string>>)
    ensures Joined(hits, Prepend(x, rest)) == Joined(hits + [x], rest)
  {
    if rest.Some? { assert hits + ([x] + rest.value) == (hits + [x]) + rest.value; }
  }
}
