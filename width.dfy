/**
 * The number of terminal columns a code point or a string occupies (main.go `runeWidth`
 * and `displayWidth`): this count is behind every width computation of the status line and
 * the one-column check on the truncation character.
 */
module Columns {

  /**
   * Membership in Unicode general category Mn (non-spacing marks), the table behind
   * `unicode.Is(unicode.Mn, r)`. The table itself is not part of this model.
   */
  const MnTable: char -> bool

  /** No code point below U+0300 COMBINING GRAVE ACCENT is a non-spacing mark. */
  predicate IsMn(c: char) {
    '\U{0300}' <= c && MnTable(c)
  }

  /** `utf8.RuneLen`: the length of a code point's UTF-8 encoding (RFC 3629, section 3). */
  function Utf8Len(c: char): (n: nat)
    ensures 1 <= n <= 4
    ensures n == 4 <==> c as int >= 0x10000
    ensures n == 1 <==> c as int < 0x80
  {
    if c as int < 0x80 then 1
    else if c as int < 0x800 then 2
    else if c as int < 0x10000 then 3
    else 4
  }

  /**
   * `runeWidth`: a non-spacing mark takes no column, a code point outside the Basic
   * Multilingual Plane (a four-byte UTF-8 sequence, emoji among them) takes two, every
   * other code point one.
   */
  function RuneWidth(c: char): (w: nat)
    ensures w <= 2
    ensures w == 0 <==> IsMn(c)
    ensures w == 2 <==> !IsMn(c) && c as int >= 0x10000
    ensures c < '\U{0300}' ==> w == 1
  {
    if IsMn(c) then 0
    else if Utf8Len(c) == 4 then 2
    else 1
  }

  /** The display width of a string: the sum of the widths of its code points. */
  function Width(s: string): nat {
    if s == [] then 0 else RuneWidth(s[0]) + Width(s[1..])
  }

  /** No code point is wider than two columns, so no string is wider than twice its length. */
  lemma {:induction false} WidthAtMostTwice(s: string)
    ensures Width(s) <= 2 * |s|
    decreases |s|
  {
    if s != [] {
      WidthAtMostTwice(s[1..]);
    }
  }

  /** Every code point takes exactly one column. */
  predicate Narrow(s: string) {
    forall i :: 0 <= i < |s| ==> RuneWidth(s[i]) == 1
  }

  /** No code point takes two columns. */
  predicate NoWide(s: string) {
    forall i :: 0 <= i < |s| ==> RuneWidth(s[i]) <= 1
  }

  /** Width is additive over concatenation. */
  lemma {:induction false} WidthAppend(a: string, b: string)
    ensures Width(a + b) == Width(a) + Width(b)
    decreases |a|
  {
    if a != [] {
      assert (a + b)[0] == a[0];
      assert (a + b)[1..] == a[1..] + b;
      WidthAppend(a[1..], b);
    } else {
      assert a + b == b;
    }
  }

  /** Without wide code points a string is at most as wide as it is long. */
  lemma {:induction false} WidthNoWide(s: string)
    requires NoWide(s)
    ensures Width(s) <= |s|
    decreases |s|
  {
    if s != [] {
      assert NoWide(s[1..]) by {
        assert forall i :: 0 <= i < |s| - 1 ==> s[1..][i] == s[i + 1];
      }
      WidthNoWide(s[1..]);
    }
  }

  /** A string of one-column code points is exactly as wide as it is long. */
  lemma {:induction false} WidthNarrow(s: string)
    requires Narrow(s)
    ensures Width(s) == |s|
    decreases |s|
  {
    if s != [] {
      assert Narrow(s[1..]) by {
        assert forall i :: 0 <= i < |s| - 1 ==> s[1..][i] == s[i + 1];
      }
      WidthNarrow(s[1..]);
    }
  }

  /** A slice of one-column code points is still made of them. */
  lemma NarrowSlice(s: string, a: nat, b: nat)
    requires Narrow(s) && a <= b <= |s|
    ensures Narrow(s[a..b])
  {
    forall i | 0 <= i < b - a ensures RuneWidth(s[a..b][i]) == 1 {
      assert s[a..b][i] == s[a + i];
    }
  }

  /** Every code point below U+0300 (ASCII and Latin-1 among them) is one column wide. */
  lemma LowCodePointsNarrow(s: string)
    requires forall i :: 0 <= i < |s| ==> s[i] < '\U{0300}'
    ensures Narrow(s)
  {
  }

  /**
   * `displayWidth`: accumulates the width of each code point from left to right.
   */
  method DisplayWidth(s: string) returns (w: nat)
    ensures w == Width(s)
  {
    w := 0;
    var i := 0;
    while i < |s|
      invariant 0 <= i <= |s|
      invariant w == Width(s[..i])
    {
      WidthAppend(s[..i], [s[i]]);
      assert s[..i + 1] == s[..i] + [s[i]];
      w := w + RuneWidth(s[i]);
      i := i + 1;
    }
    assert s[..i] == s;
  }
}
