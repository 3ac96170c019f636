/** Texts as sequences of bytes in UTF-8, the way Rust indexes them. */
module Encoding {
  import opened Basics

  predicate Continues(c: char) { '\U{80}' <= c < '\U{C0}' }

  function Width(lead: char): nat {
    if lead < '\U{80}' then 1 else if lead < '\U{E0}' then 2 else if lead < '\U{F0}' then 3 else 4
  }

  predicate Utf8(t: string) {
    t != "" ==>
      var w := Width(t[0]);
      !Continues(t[0]) && w <= |t| && (forall k :: 1 <= k < w ==> Continues(t[k])) && Utf8(t[w..])
  }

  /** `is_char_boundary`. */
  predicate Boundary(t: string, i: nat) { i == 0 || i == |t| || (i < |t| && !Continues(t[i])) }

  /** `&t[i..j]`, which panics outside the text or inside a character. */
  function Slice(t: string, i: nat, j: nat): Option<string> {
    if i <= j <= |t| && Boundary(t, i) && Boundary(t, j) then Some(t[i..j]) else None
  }

  /** A text cut at a boundary is two texts. */
  lemma {:induction false} CutAtBoundary(t: string, i: nat)
    requires Utf8(t) && i <= |t| && Boundary(t, i)
    ensures Utf8(t[..i]) && Utf8(t[i..])
  {
    if i == 0 {
      assert t[i..] == t;
    } else {
      var w := Width(t[0]);
      CutAtBoundary(t[w..], i - w);
      assert t[..i][w..] == t[w..][..i - w] && t[i..] == t[w..][i - w..];
    }
  }

  lemma {:induction false} RestOfPrefix(t: string, key: string)
    requires Utf8(t) && Utf8(key) && key <= t
    ensures Utf8(t[|key|..])
  {
    if key == "" {
      assert t[|key|..] == t;
    } else {
      var w := Width(key[0]);
      RestOfPrefix(t[w..], key[w..]);
      assert t[|key|..] == t[w..][|key| - w..];
    }
  }
}
