/**
 * The operations of Go's `strings` and `strconv` packages that the viewer relies on,
 * stated over code-point sequences (a Go string holding valid UTF-8). The functions carry
 * no postconditions of their own; what the model needs about them is proved in lemmas.
 */
module Strs {
  import opened Wrappers

  /** `unicode.IsSpace`: the Latin-1 spaces and the Unicode White_Space property. */
  predicate IsSpace(c: char) {
    || c == '\t' || c == '\n' || c == '\U{0B}' || c == '\U{0C}' || c == '\r' || c == ' '
    || c == '\U{85}' || c == '\U{A0}' || c == '\U{1680}'
    || ('\U{2000}' <= c <= '\U{200A}')
    || c == '\U{2028}' || c == '\U{2029}' || c == '\U{202F}' || c == '\U{205F}' || c == '\U{3000}'
  }

  predicate NoSpace(s: string) {
    forall i :: 0 <= i < |s| ==> !IsSpace(s[i])
  }

  predicate AllSpace(s: string) {
    forall i :: 0 <= i < |s| ==> IsSpace(s[i])
  }

  /** `strings.TrimLeftFunc(s, unicode.IsSpace)`: drops the leading white space. */
  function TrimLeft(s: string): string {
    if s == [] || !IsSpace(s[0]) then s else TrimLeft(s[1..])
  }

  /** `strings.TrimRightFunc(s, unicode.IsSpace)`: drops the trailing white space. */
  function TrimRight(s: string): string {
    if s == [] || !IsSpace(s[|s| - 1]) then s else TrimRight(s[..|s| - 1])
  }

  /** `strings.TrimSpace`. */
  function TrimSpace(s: string): string {
    TrimRight(TrimLeft(s))
  }

  /** A string with no white space at either end is left alone by `TrimSpace`. */
  lemma TrimSpaceKeeps(s: string)
    requires s == [] || (!IsSpace(s[0]) && !IsSpace(s[|s| - 1]))
    ensures TrimSpace(s) == s
  {
  }

  /** Leading white space makes no difference to what `TrimLeft` leaves. */
  lemma {:induction false} TrimLeftSkips(ws: string, s: string)
    requires AllSpace(ws)
    ensures TrimLeft(ws + s) == TrimLeft(s)
    decreases |ws|
  {
    if ws == [] {
      assert ws + s == s;
    } else {
      assert (ws + s)[1..] == ws[1..] + s;
      TrimLeftSkips(ws[1..], s);
    }
  }

  /** Trailing white space makes no difference to what `TrimRight` leaves. */
  lemma {:induction false} TrimRightSkips(s: string, ws: string)
    requires AllSpace(ws)
    ensures TrimRight(s + ws) == TrimRight(s)
    decreases |ws|
  {
    if ws == [] {
      assert s + ws == s;
    } else {
      var t := s + ws;
      assert t[..|t| - 1] == s + ws[..|ws| - 1];
      TrimRightSkips(s, ws[..|ws| - 1]);
    }
  }

  /** `TrimSpace` strips any white space around a text that has none at its ends. */
  lemma TrimSpaceAround(ws1: string, s: string, ws2: string)
    requires AllSpace(ws1) && AllSpace(ws2)
    requires s != [] && !IsSpace(s[0]) && !IsSpace(s[|s| - 1])
    ensures TrimSpace(ws1 + s + ws2) == s
  {
    assert ws1 + s + ws2 == ws1 + (s + ws2);
    TrimLeftSkips(ws1, s + ws2);
    assert (s + ws2)[0] == s[0];
    TrimRightSkips(s, ws2);
  }

  /** What `TrimLeft` leaves starts with a code point that is not white space. */
  lemma {:induction false} TrimLeftFirst(s: string)
    ensures TrimLeft(s) == [] || !IsSpace(TrimLeft(s)[0])
    decreases |s|
  {
    if s != [] && IsSpace(s[0]) {
      TrimLeftFirst(s[1..]);
    }
  }

  /** `TrimRight` keeps a first code point that is not white space. */
  lemma {:induction false} TrimRightFirst(s: string)
    requires s != [] && !IsSpace(s[0])
    ensures TrimRight(s) != [] && TrimRight(s)[0] == s[0]
    decreases |s|
  {
    if IsSpace(s[|s| - 1]) {
      TrimRightFirst(s[..|s| - 1]);
    }
  }

  /** A string whose white space is followed by something trims to a string starting with that. */
  lemma TrimSpaceFirst(s: string)
    requires TrimLeft(s) != []
    ensures TrimSpace(s) != [] && TrimSpace(s)[0] == TrimLeft(s)[0]
  {
    TrimLeftFirst(s);
    TrimRightFirst(TrimLeft(s));
  }

  /** Trimming adds no code point. */
  lemma {:induction false} TrimLeftWithin(s: string, c: char)
    requires c in TrimLeft(s)
    ensures c in s
    decreases |s|
  {
    if s != [] && IsSpace(s[0]) {
      TrimLeftWithin(s[1..], c);
      var i :| 0 <= i < |s[1..]| && s[1..][i] == c;
      assert s[i + 1] == c;
    }
  }

  lemma {:induction false} TrimRightWithin(s: string, c: char)
    requires c in TrimRight(s)
    ensures c in s
    decreases |s|
  {
    if s != [] && IsSpace(s[|s| - 1]) {
      TrimRightWithin(s[..|s| - 1], c);
      var i :| 0 <= i < |s| - 1 && s[..|s| - 1][i] == c;
      assert s[i] == c;
    }
  }

  lemma TrimSpaceWithin(s: string, c: char)
    requires c in TrimSpace(s)
    ensures c in s
  {
    TrimRightWithin(TrimLeft(s), c);
    TrimLeftWithin(s, c);
  }

  /** Trimming leaves nothing exactly when the string is white space alone. */
  lemma TrimSpaceEmpty(s: string)
    ensures TrimSpace(s) == [] <==> AllSpace(s)
  {
    TrimLeftBlank(s);
    TrimRightEmpty(TrimLeft(s));
  }

  /** What `TrimLeft` leaves is white space alone exactly when the whole string was. */
  lemma {:induction false} TrimLeftBlank(s: string)
    ensures AllSpace(TrimLeft(s)) <==> AllSpace(s)
    decreases |s|
  {
    if s != [] && IsSpace(s[0]) {
      assert AllSpace(s) <==> AllSpace(s[1..]) by {
        assert forall i :: 0 <= i < |s| - 1 ==> s[1..][i] == s[i + 1];
      }
      TrimLeftBlank(s[1..]);
    }
  }

  /** `TrimRight` leaves nothing exactly when the string is white space alone. */
  lemma {:induction false} TrimRightEmpty(s: string)
    ensures TrimRight(s) == [] <==> AllSpace(s)
    decreases |s|
  {
    if s != [] && IsSpace(s[|s| - 1]) {
      var p := s[..|s| - 1];
      assert AllSpace(s) <==> AllSpace(p) by {
        assert forall i :: 0 <= i < |p| ==> p[i] == s[i];
      }
      TrimRightEmpty(p);
    }
  }

  /** The text of a field being collected, as a list of at most one field. */
  function Flush(cur: string): seq<string> {
    if cur == [] then [] else [cur]
  }

  /**
   * The fields of `s` when the field `cur` is being collected: white space ends the
   * current field, any other code point extends it.
   */
  function FieldsFrom(s: string, cur: string): seq<string>
    decreases |s|
  {
    if s == [] then Flush(cur)
    else if IsSpace(s[0]) then Flush(cur) + FieldsFrom(s[1..], [])
    else FieldsFrom(s[1..], cur + [s[0]])
  }

  /** `strings.Fields`: the maximal runs of non-space code points, in order. */
  function Fields(s: string): seq<string> {
    FieldsFrom(s, [])
  }

  /** A run without white space extends the field being collected. */
  lemma {:induction false} FieldsFromWord(w: string, cur: string, rest: string)
    requires NoSpace(w)
    ensures FieldsFrom(w + rest, cur) == FieldsFrom(rest, cur + w)
    decreases |w|
  {
    if w == [] {
      assert w + rest == rest && cur + w == cur;
    } else {
      assert (w + rest)[0] == w[0] && (w + rest)[1..] == w[1..] + rest;
      FieldsFromWord(w[1..], cur + [w[0]], rest);
      assert cur + [w[0]] + w[1..] == cur + w;
    }
  }

  /** A word followed by white space is the first field, and the rest is split on its own. */
  lemma FieldsCons(w: string, c: char, rest: string)
    requires w != [] && NoSpace(w) && IsSpace(c)
    ensures Fields(w + [c] + rest) == [w] + Fields(rest)
  {
    assert w + [c] + rest == w + ([c] + rest);
    FieldsFromWord(w, [], [c] + rest);
    assert [] + w == w;
    assert ([c] + rest)[1..] == rest;
  }

  /** A non-empty word without white space is a single field. */
  lemma FieldsSingle(w: string)
    requires w != [] && NoSpace(w)
    ensures Fields(w) == [w]
  {
    assert w + [] == w;
    FieldsFromWord(w, [], []);
    assert [] + w == w;
  }

  /** There are no fields exactly when nothing is being collected and only white space follows. */
  lemma {:induction false} FieldsFromEmpty(s: string, cur: string)
    ensures FieldsFrom(s, cur) == [] <==> cur == [] && AllSpace(s)
    decreases |s|
  {
    if s != [] {
      assert AllSpace(s) <==> IsSpace(s[0]) && AllSpace(s[1..]) by {
        assert forall i :: 0 <= i < |s| - 1 ==> s[1..][i] == s[i + 1];
      }
      if IsSpace(s[0]) {
        FieldsFromEmpty(s[1..], []);
      } else {
        FieldsFromEmpty(s[1..], cur + [s[0]]);
      }
    }
  }

  /** A string has no fields exactly when it is white space alone. */
  lemma FieldsEmpty(s: string)
    ensures Fields(s) == [] <==> AllSpace(s)
  {
    FieldsFromEmpty(s, []);
  }

  /** `strings.HasPrefix`. */
  predicate HasPrefix(s: string, p: string) {
    |p| <= |s| && s[..|p|] == p
  }

  /**
   * `strings.Cut(s, [c])`: the text before and after the first `c`, or `None` when `s`
   * holds no `c`.
   */
  function Cut(s: string, c: char): Option<(string, string)> {
    if s == [] then None
    else if s[0] == c then Some(([], s[1..]))
    else match Cut(s[1..], c)
      case None => None
      case Some(p) => Some(([s[0]] + p.0, p.1))
  }

  /** `Cut` splits at the first `c`, and finds none only when there is none. */
  lemma {:induction false} CutSpec(s: string, c: char)
    ensures Cut(s, c).None? <==> c !in s
    ensures Cut(s, c).Some? ==> s == Cut(s, c).value.0 + [c] + Cut(s, c).value.1 && c !in Cut(s, c).value.0
    decreases |s|
  {
    if s != [] && s[0] != c {
      CutSpec(s[1..], c);
      assert s == [s[0]] + s[1..];
    }
  }

  /** Text free of `c` followed by `c` is cut right there. */
  lemma {:induction false} CutAt(a: string, c: char, b: string)
    requires c !in a
    ensures Cut(a + [c] + b, c) == Some((a, b))
    decreases |a|
  {
    var s := a + [c] + b;
    if a == [] {
      assert s[1..] == b;
    } else {
      assert s[0] == a[0] && s[1..] == a[1..] + [c] + b;
      CutAt(a[1..], c, b);
      assert [a[0]] + a[1..] == a;
    }
  }

  /** `strings.Split` for a non-empty separator: the pieces between leftmost occurrences. */
  function Split(s: string, sep: string): (parts: seq<string>)
    requires sep != []
    ensures |parts| >= 1
    decreases |s|
  {
    if |s| < |sep| then [s]
    else if s[..|sep|] == sep then [[]] + Split(s[|sep|..], sep)
    else
      var rest := Split(s[1..], sep);
      [[s[0]] + rest[0]] + rest[1..]
  }

  /** `strings.Count` for a non-empty pattern: the number of leftmost non-overlapping occurrences. */
  function Count(s: string, sep: string): nat
    requires sep != []
    decreases |s|
  {
    if |s| < |sep| then 0
    else if s[..|sep|] == sep then 1 + Count(s[|sep|..], sep)
    else Count(s[1..], sep)
  }

  /** `strings.Join`. */
  function Join(xs: seq<string>, sep: string): string {
    if xs == [] then []
    else if |xs| == 1 then xs[0]
    else xs[0] + sep + Join(xs[1..], sep)
  }

  /** Appending a piece to a joined list appends the separator and the piece. */
  lemma {:induction false} JoinSnoc(xs: seq<string>, x: string, sep: string)
    requires xs != []
    ensures Join(xs + [x], sep) == Join(xs, sep) + sep + x
    decreases |xs|
  {
    var ys := xs + [x];
    assert ys[1..] == xs[1..] + [x];
    if |xs| > 1 {
      JoinSnoc(xs[1..], x, sep);
    }
  }

  /** Joining two non-empty lists puts one separator between their joins. */
  lemma {:induction false} JoinAppend(xs: seq<string>, ys: seq<string>, sep: string)
    requires xs != [] && ys != []
    ensures Join(xs + ys, sep) == Join(xs, sep) + sep + Join(ys, sep)
    decreases |ys|
  {
    var last := ys[|ys| - 1];
    if |ys| == 1 {
      assert ys == [last];
      JoinSnoc(xs, last, sep);
    } else {
      var init := ys[..|ys| - 1];
      assert xs + ys == (xs + init) + [last];
      assert ys == init + [last];
      JoinSnoc(xs + init, last, sep);
      JoinSnoc(init, last, sep);
      JoinAppend(xs, init, sep);
      var a, b := Join(xs, sep), Join(init, sep);
      assert (a + sep + b) + sep + last == a + sep + (b + sep + last);
    }
  }

  /** `Split` and `Count` scan the same occurrences: `Count` separators give `Count + 1` pieces. */
  lemma {:induction false} SplitCount(s: string, sep: string)
    requires sep != []
    ensures |Split(s, sep)| == Count(s, sep) + 1
    decreases |s|
  {
    if |s| < |sep| {
    } else if s[..|sep|] == sep {
      SplitCount(s[|sep|..], sep);
    } else {
      SplitCount(s[1..], sep);
    }
  }

  /** Joining the pieces back with the separator gives the original string. */
  lemma {:induction false} JoinSplit(s: string, sep: string)
    requires sep != []
    ensures Join(Split(s, sep), sep) == s
    decreases |s|
  {
    if |s| < |sep| {
    } else if s[..|sep|] == sep {
      var rest := Split(s[|sep|..], sep);
      JoinSplit(s[|sep|..], sep);
      assert Split(s, sep) == [[]] + rest;
      JoinEmptyFirst(rest, sep);
      assert s == sep + s[|sep|..];
    } else {
      var rest := Split(s[1..], sep);
      JoinSplit(s[1..], sep);
      assert Split(s, sep) == [[s[0]] + rest[0]] + rest[1..];
      JoinCons(s[0], rest, sep);
      assert s == [s[0]] + s[1..];
    }
  }

  /** An empty first piece contributes only its separator. */
  lemma JoinEmptyFirst(rest: seq<string>, sep: string)
    requires rest != []
    ensures Join([[]] + rest, sep) == sep + Join(rest, sep)
  {
    assert ([[]] + rest)[1..] == rest;
  }

  /** A character put in front of the first piece comes out in front of the join. */
  lemma JoinCons(c: char, rest: seq<string>, sep: string)
    requires rest != []
    ensures Join([[c] + rest[0]] + rest[1..], sep) == [c] + Join(rest, sep)
  {
    var xs := [[c] + rest[0]] + rest[1..];
    if |rest| > 1 {
      assert xs[1..] == rest[1..];
      var j := Join(rest[1..], sep);
      assert Join(xs, sep) == ([c] + rest[0]) + sep + j;
      assert Join(rest, sep) == rest[0] + sep + j;
      assert ([c] + rest[0]) + sep + j == [c] + (rest[0] + sep + j);
    }
  }

  /**
   * Splitting on a one-character separator undoes `Join` when no piece holds the
   * separator.
   */
  lemma {:induction false} SplitJoin(xs: seq<string>, c: char)
    requires xs != []
    requires forall i :: 0 <= i < |xs| ==> c !in xs[i]
    ensures Split(Join(xs, [c]), [c]) == xs
    decreases |xs|, |xs[0]|
  {
    var x := xs[0];
    if x == [] {
      if |xs| == 1 {
      } else {
        var s := Join(xs, [c]);
        assert s == [c] + Join(xs[1..], [c]);
        assert s[1..] == Join(xs[1..], [c]);
        SplitJoin(xs[1..], c);
        assert Split(s, [c]) == [[]] + xs[1..];
      }
    } else {
      var xs' := [x[1..]] + xs[1..];
      assert forall i :: 0 <= i < |xs'| ==> c !in xs'[i] by {
        assert forall i :: 1 <= i < |xs'| ==> xs'[i] == xs[i];
      }
      SplitJoin(xs', c);
      var s := Join(xs, [c]);
      JoinHead(xs, c);
      assert s == [x[0]] + Join(xs', [c]);
      assert s[1..] == Join(xs', [c]);
      assert x[0] != c;
      assert s[..1] != [c];
      assert [x[0]] + x[1..] == x;
    }
  }

  lemma JoinHead(xs: seq<string>, c: char)
    requires xs != [] && xs[0] != []
    ensures Join(xs, [c]) == [xs[0][0]] + Join([xs[0][1..]] + xs[1..], [c])
  {
    var xs' := [xs[0][1..]] + xs[1..];
    assert xs'[1..] == xs[1..];
    assert xs[0] == [xs[0][0]] + xs[0][1..];
  }

  /** `sub` occurs in `s` starting at index `i`. */
  predicate OccursAt(s: string, sub: string, i: int) {
    0 <= i && i + |sub| <= |s| && s[i..i + |sub|] == sub
  }

  /** The leftmost occurrence of `sub` in `s` starts at index `i`. */
  predicate FirstAt(s: string, sub: string, i: int) {
    OccursAt(s, sub, i) && forall j :: 0 <= j < i ==> !OccursAt(s, sub, j)
  }

  /** `strings.Contains`. */
  predicate Contains(s: string, sub: string) {
    exists i :: 0 <= i <= |s| && OccursAt(s, sub, i)
  }

  /** `strings.Replace(s, pat, rep, 1)` for a non-empty `pat`: replaces the leftmost occurrence. */
  function ReplaceFirst(s: string, pat: string, rep: string): string
    requires pat != []
    decreases |s|
  {
    if |s| < |pat| then s
    else if s[..|pat|] == pat then rep + s[|pat|..]
    else [s[0]] + ReplaceFirst(s[1..], pat, rep)
  }

  /** `ReplaceFirst` leaves `s` as it is, because `pat` does not occur in it. */
  predicate Untouched(s: string, pat: string, rep: string)
    requires pat != []
  {
    !Contains(s, pat) && ReplaceFirst(s, pat, rep) == s
  }

  /** `ReplaceFirst` puts `rep` in place of the leftmost occurrence of `pat`, at index `i`. */
  predicate ReplacedAt(s: string, pat: string, rep: string, i: nat)
    requires pat != []
  {
    FirstAt(s, pat, i) && ReplaceFirst(s, pat, rep) == s[..i] + rep + s[i + |pat|..]
  }

  /**
   * `ReplaceFirst` replaces the occurrence at the returned index, and no occurrence starts
   * before it; `None` means there is none and the string is unchanged.
   */
  lemma {:induction false} ReplaceFirstSpec(s: string, pat: string, rep: string)
    returns (at: Option<nat>)
    requires pat != []
    ensures at.None? ==> Untouched(s, pat, rep)
    ensures at.Some? ==> ReplacedAt(s, pat, rep, at.value)
    decreases |s|
  {
    if |s| < |pat| {
      NoRoomAbsent(s, pat, rep);
      return None;
    } else if s[..|pat|] == pat {
      AtStart(s, pat, rep);
      return Some(0);
    } else {
      var r := ReplaceFirstSpec(s[1..], pat, rep);
      if r.None? {
        ShiftedAbsent(s, pat, rep);
        return None;
      } else {
        ShiftedReplace(s, pat, rep, r.value);
        return Some(r.value + 1);
      }
    }
  }

  /** A pattern longer than the string does not occur in it. */
  lemma NoRoomAbsent(s: string, pat: string, rep: string)
    requires pat != [] && |s| < |pat|
    ensures Untouched(s, pat, rep)
  {
  }

  /** A string that starts with the pattern is replaced at index 0. */
  lemma AtStart(s: string, pat: string, rep: string)
    requires pat != [] && |pat| <= |s| && s[..|pat|] == pat
    ensures ReplacedAt(s, pat, rep, 0)
  {
    assert OccursAt(s, pat, 0);
    assert s[..0] + rep + s[|pat|..] == rep + s[|pat|..];
  }

  /** No occurrence in the tail and none at the start: none at all, and nothing replaced. */
  lemma ShiftedAbsent(s: string, pat: string, rep: string)
    requires pat != [] && |pat| <= |s| && s[..|pat|] != pat
    requires Untouched(s[1..], pat, rep)
    ensures Untouched(s, pat, rep)
  {
    OccursShift(s, pat);
    forall i | 0 <= i <= |s| ensures !OccursAt(s, pat, i) {
      if i > 0 {
        assert !OccursAt(s[1..], pat, i - 1);
      }
    }
    assert [s[0]] + s[1..] == s;
  }

  /** A replacement in the tail, at index `k`, is a replacement in the whole string at `k + 1`. */
  lemma ShiftedReplace(s: string, pat: string, rep: string, k: nat)
    requires pat != [] && |pat| <= |s| && s[..|pat|] != pat
    requires ReplacedAt(s[1..], pat, rep, k)
    ensures ReplacedAt(s, pat, rep, k + 1)
  {
    OccursShift(s, pat);
    forall j | 1 <= j < k + 1 ensures !OccursAt(s, pat, j) {
      assert !OccursAt(s[1..], pat, j - 1);
    }
    ShiftedSplice(s, pat, rep, k);
  }

  /** The splice of the tail, with the first character put back in front. */
  lemma ShiftedSplice(s: string, pat: string, rep: string, k: nat)
    requires pat != [] && |pat| <= |s| && s[..|pat|] != pat && k + |pat| < |s|
    requires ReplaceFirst(s[1..], pat, rep) == s[1..][..k] + rep + s[1..][k + |pat|..]
    ensures ReplaceFirst(s, pat, rep) == s[..k + 1] + rep + s[k + 1 + |pat|..]
  {
    var a, b := s[1..][..k], s[1..][k + |pat|..];
    assert ReplaceFirst(s, pat, rep) == [s[0]] + (a + rep + b);
    assert s[..k + 1] == [s[0]] + a;
    assert s[k + 1 + |pat|..] == b;
    assert [s[0]] + (a + rep + b) == ([s[0]] + a) + rep + b;
  }

  /** An occurrence past the first index is an occurrence in the tail, one index earlier. */
  lemma OccursShift(s: string, pat: string)
    requires s != []
    ensures forall j :: 1 <= j <= |s| ==> (OccursAt(s, pat, j) <==> OccursAt(s[1..], pat, j - 1))
  {
    forall j | 1 <= j <= |s|
      ensures OccursAt(s, pat, j) <==> OccursAt(s[1..], pat, j - 1)
    {
      if j + |pat| <= |s| {
        var u, v := s[1..][j - 1..j - 1 + |pat|], s[j..j + |pat|];
        assert forall t :: 0 <= t < |pat| ==> u[t] == v[t];
        assert u == v;
      }
    }
  }

  /** `strings.ReplaceAll` for a non-empty `pat`: leftmost, non-overlapping, no rescanning. */
  function ReplaceAll(s: string, pat: string, rep: string): string
    requires pat != []
    decreases |s|
  {
    if |s| < |pat| then s
    else if s[..|pat|] == pat then rep + ReplaceAll(s[|pat|..], pat, rep)
    else [s[0]] + ReplaceAll(s[1..], pat, rep)
  }

  /** A string without the pattern is left alone by `ReplaceAll`. */
  lemma {:induction false} ReplaceAllAbsent(s: string, pat: string, rep: string)
    requires pat != [] && !Contains(s, pat)
    ensures ReplaceAll(s, pat, rep) == s
    decreases |s|
  {
    if |s| >= |pat| {
      assert !OccursAt(s, pat, 0);
      OccursShift(s, pat);
      assert !Contains(s[1..], pat) by {
        forall j | 0 <= j <= |s[1..]| ensures !OccursAt(s[1..], pat, j) {
          assert !OccursAt(s, pat, j + 1);
        }
      }
      ReplaceAllAbsent(s[1..], pat, rep);
    }
  }

  /** No code point of `a` occurs in `b`. */
  predicate Disjoint(a: string, b: string) {
    forall k :: 0 <= k < |a| ==> a[k] !in b
  }

  /** Dropping the first `d` code points moves every occurrence from index `j` to `j - d`. */
  lemma OccursDrop(s: string, sub: string, d: nat)
    requires d <= |s|
    ensures forall j :: d <= j <= |s| ==> (OccursAt(s, sub, j) <==> OccursAt(s[d..], sub, j - d))
  {
    forall j | d <= j <= |s| ensures OccursAt(s, sub, j) <==> OccursAt(s[d..], sub, j - d) {
      if j + |sub| <= |s| {
        assert s[j..j + |sub|] == s[d..][j - d..j - d + |sub|];
      }
    }
  }

  /** A string without `sub` has no `sub` in any of its suffixes. */
  lemma AbsentInSuffix(s: string, sub: string, d: nat)
    requires d <= |s| && !Contains(s, sub)
    ensures !Contains(s[d..], sub)
  {
    OccursDrop(s, sub, d);
    forall j | 0 <= j <= |s[d..]| ensures !OccursAt(s[d..], sub, j) {
      assert !OccursAt(s, sub, j + d);
    }
  }

  /**
   * A prefix of `ReplaceAll`'s result made only of code points of `q`, where the replacement
   * holds none of them, is a prefix of the input: no replacement reaches into it.
   */
  lemma {:induction false} ReplaceAllKeepsPrefix(t: string, pat: string, rep: string, q: string, m: nat)
    requires pat != [] && rep != [] && Disjoint(rep, q)
    ensures var r := ReplaceAll(t, pat, rep);
            m <= |r| && (forall k :: 0 <= k < m ==> r[k] in q) ==> m <= |t| && r[..m] == t[..m]
    decreases |t|
  {
    var r := ReplaceAll(t, pat, rep);
    if |t| < |pat| {
    } else if t[..|pat|] == pat {
      if m > 0 {
        assert r[0] == rep[0];
      }
    } else if m > 0 {
      var r' := ReplaceAll(t[1..], pat, rep);
      assert r == [t[0]] + r';
      ReplaceAllKeepsPrefix(t[1..], pat, rep, q, m - 1);
      if m <= |r| {
        assert r[1..] == r';
        assert r[..m] == [t[0]] + r'[..m - 1];
      }
    }
  }

  /**
   * When the replacement shares no code point with `q`, `ReplaceAll` leaves no occurrence of
   * `q` behind, provided `q` is the replaced pattern itself or did not occur to begin with:
   * the scan goes left to right and never rescans what it wrote.
   */
  lemma {:induction false} ReplaceAllAvoids(s: string, pat: string, rep: string, q: string)
    requires pat != [] && q != [] && rep != [] && Disjoint(rep, q)
    requires q == pat || !Contains(s, q)
    ensures !Contains(ReplaceAll(s, pat, rep), q)
    decreases |s|
  {
    var r := ReplaceAll(s, pat, rep);
    if |s| < |pat| {
    } else if s[..|pat|] == pat {
      var r' := ReplaceAll(s[|pat|..], pat, rep);
      if q != pat {
        AbsentInSuffix(s, q, |pat|);
      }
      ReplaceAllAvoids(s[|pat|..], pat, rep, q);
      assert r == rep + r' && r[|rep|..] == r';
      OccursDrop(r, q, |rep|);
      forall i | 0 <= i <= |r| ensures !OccursAt(r, q, i) {
        if i < |rep| {
          assert r[i] == rep[i] && r[i] !in q;
          assert q[0] in q;
        }
      }
    } else {
      var r' := ReplaceAll(s[1..], pat, rep);
      if q != pat {
        AbsentInSuffix(s, q, 1);
      }
      ReplaceAllAvoids(s[1..], pat, rep, q);
      assert r == [s[0]] + r' && r[1..] == r';
      OccursDrop(r, q, 1);
      ReplaceAllKeepsPrefix(s, pat, rep, q, |q|);
      forall i | 0 <= i <= |r| ensures !OccursAt(r, q, i) {
        if i == 0 {
          assert forall k :: 0 <= k < |q| ==> q[k] in q;
          assert !OccursAt(s, q, 0);
        }
      }
    }
  }

  /** `strings.Repeat(" ", n)`. */
  function Spaces(n: nat): string {
    seq(n, _ => ' ')
  }

  function DigitChar(d: nat): char
    requires d < 10
  {
    ('0' as int + d) as char
  }

  predicate IsDigits(s: string) {
    forall i :: 0 <= i < |s| ==> '0' <= s[i] <= '9'
  }

  /** The decimal digits of a natural number, most significant first, without leading zeros. */
  function NatToString(n: nat): string {
    if n < 10 then [DigitChar(n)] else NatToString(n / 10) + [DigitChar(n % 10)]
  }

  /** The value of a string of decimal digits: the reading `strconv.Atoi` gives it. */
  function DigitsValue(s: string): nat
    requires IsDigits(s)
  {
    if s == [] then 0 else 10 * DigitsValue(s[..|s| - 1]) + (s[|s| - 1] as int - '0' as int)
  }

  /** `NatToString` writes digits only, and reading them back gives the number. */
  lemma {:induction false} NatToStringDigits(n: nat)
    ensures NatToString(n) != [] && IsDigits(NatToString(n))
    ensures DigitsValue(NatToString(n)) == n
  {
    if n >= 10 {
      NatToStringDigits(n / 10);
      var s := NatToString(n);
      assert s[..|s| - 1] == NatToString(n / 10);
    }
  }

  /** `strconv.Itoa`: a leading `-` for negative numbers, then the digits. */
  function Itoa(n: int): string {
    if n < 0 then "-" + NatToString(-n) else NatToString(n)
  }

  /** A number's text holds neither white space nor `%`. */
  lemma ItoaPlain(n: int)
    ensures Itoa(n) != [] && NoSpace(Itoa(n)) && '%' !in Itoa(n)
  {
    var d := NatToString(if n < 0 then -n else n);
    NatToStringDigits(if n < 0 then -n else n);
    DigitsPlain(d);
    if n < 0 {
      var s := "-" + d;
      assert forall i :: 1 <= i < |s| ==> s[i] == d[i - 1];
    }
  }

  lemma DigitsPlain(s: string)
    requires IsDigits(s)
    ensures NoSpace(s) && '%' !in s
  {
    forall i | 0 <= i < |s| ensures !IsSpace(s[i]) && s[i] != '%' {
      assert '0' <= s[i] <= '9';
    }
  }

  /** `fmt.Sprintf("%*s", w, s)`: pads on the left with spaces to `w` code points. */
  function PadLeft(s: string, w: nat): string {
    if |s| < w then Spaces(w - |s|) + s else s
  }
}
