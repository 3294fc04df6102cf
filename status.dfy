/**
 * The status line (main.go `printStatus` up to the point where it prints): placeholder
 * substitution, the `0x0` fix-up, truncation from the left and distribution of the free
 * columns over the `%=` gaps.
 */
module Status {
  import opened Wrappers
  import opened Strs
  import opened Columns
  import opened Replacer
  import opened Catalog

  /** `humanReadable` for sizes of 1024 bytes and more (floating-point formatting). */
  const ScaledSize: int -> string

  /** `humanReadable`: sizes under 1024 bytes are written as a plain byte count. */
  function HumanReadable(size: int): string {
    if size < 1024 then Itoa(size) + "B" else ScaledSize(size)
  }

  /** The text of `%s`: right-aligned in five columns when human-readable, else a byte count. */
  function SizeText(size: int, human: bool): string {
    if human then PadLeft(HumanReadable(size), 5) else Itoa(size) + "B"
  }

  /**
   * The placeholders of the status line: `%f` the file name, `%h` and `%w` the pixel
   * height and width, `%i` the 1-based position, `%t` the number of images, `%s` the size,
   * `%%` a percent sign.
   */
  function StatusTable(pic: Picture, idx: int, total: int, size: string): map<char, string> {
    map['%' := "%", 'f' := pic.name, 'h' := Itoa(pic.height), 'i' := Itoa(idx),
        's' := size, 't' := Itoa(total), 'w' := Itoa(pic.width)]
  }

  /** The marker of a gap to be filled with spaces. */
  const Gap: string := "%="

  /**
   * An image whose dimensions could not be read shows `N/A` in place of `0x0` or `0X0`, so
   * no such text is left in its line; any other image's line, and a line without either, is
   * left as it is.
   */
  function FixUp(s: string, pic: Picture): (r: string)
    ensures !(pic.width == 0 && pic.height == 0) ==> r == s
    ensures pic.width == 0 && pic.height == 0 ==> !Contains(r, "0x0") && !Contains(r, "0X0")
    ensures !Contains(s, "0x0") && !Contains(s, "0X0") ==> r == s
  {
    if pic.height == 0 && pic.width == 0 then
      var once := ReplaceAll(s, "0x0", "N/A");
      ReplaceAllAvoids(s, "0x0", "N/A", "0x0");
      ReplaceAllAvoids(once, "0X0", "N/A", "0x0");
      ReplaceAllAvoids(once, "0X0", "N/A", "0X0");
      assert !Contains(s, "0x0") && !Contains(s, "0X0") ==> ReplaceAll(once, "0X0", "N/A") == s by {
        if !Contains(s, "0x0") && !Contains(s, "0X0") {
          ReplaceAllAbsent(s, "0x0", "N/A");
          ReplaceAllAbsent(once, "0X0", "N/A");
        }
      }
      ReplaceAll(once, "0X0", "N/A")
    else s
  }

  /** How many columns the line overruns the terminal by, not counting the gap markers. */
  function Excess(s: string, gaps: nat, cols: int): int {
    (Width(s) - gaps * 2) - cols
  }

  /**
   * Truncation from the left. A line that fits is kept. Otherwise, when the overrun is
   * narrower than the file name, the first occurrence of the name is replaced by the
   * truncation mark followed by the name's code points from index `excess + width(mark)`;
   * when it is not, the whole line is cut the same way. The index counts code points while
   * the overrun counts columns; `None` marks a slice index past the end, a run-time panic
   * of the source.
   */
  function Truncate(s: string, gaps: nat, cols: int, name: string, mark: string): Option<string> {
    var excess := Excess(s, gaps, cols);
    if excess <= 0 then Some(s)
    else
      var k := excess + Width(mark);
      if excess < Width(name) then
        if k <= |name| then Some(ReplaceFirst(s, name, mark + name[k..])) else None
      else
        if k <= |s| then Some(mark + s[k..]) else None
  }

  /** The spaces given to gap `i`: the even share, plus one for each of the first `rem` gaps. */
  function GapWidth(i: nat, gapSize: nat, rem: nat): nat {
    if i < rem then gapSize + 1 else gapSize
  }

  /** The pieces between the markers, each gap before a piece filled with its spaces. */
  function Layout(parts: seq<string>, gapSize: nat, rem: nat): string
    requires |parts| >= 1
    decreases |parts|
  {
    if |parts| == 1 then parts[0]
    else Layout(parts[..|parts| - 1], gapSize, rem) + Spaces(GapWidth(|parts| - 2, gapSize, rem)) + parts[|parts| - 1]
  }

  /** The columns left once the line without its markers is drawn. */
  function Free(s: string, gaps: nat, cols: int): nat {
    if cols - (Width(s) - gaps * 2) > 0 then cols - (Width(s) - gaps * 2) else 0
  }

  /** Fills the gaps: the free columns are shared evenly, the remainder going to the leftmost gaps. */
  function Justify(s: string, gaps: nat, cols: int): string {
    var free := Free(s, gaps, cols);
    var gapSize := if gaps > 0 then free / gaps else 0;
    var rem := if gaps > 0 then free % gaps else 0;
    Layout(Split(s, Gap), gapSize, rem)
  }

  /** The template with its placeholders substituted and the `0x0` fix-up applied. */
  function Substituted(template: string, human: bool, pic: Picture, idx: int, total: int): string {
    FixUp(ExpandPercent(template, StatusTable(pic, idx, total, SizeText(pic.size, human))), pic)
  }

  /** What the status line comes to: not shown, the text drawn, or the panic of a bad slice index. */
  datatype StatusLine = Hidden | Shown(text: string) | IndexOutOfRange

  /**
   * The status line of `pic`, at 1-based position `idx` of `total`, on a terminal `cols`
   * columns wide, for the `statusline` template, the `truncatechar` mark and the
   * `humanreadable` flag.
   */
  function Status(template: string, mark: string, human: bool, cols: int, pic: Picture, idx: int, total: int): (r: StatusLine)
    ensures r.Hidden? <==> template == ""
  {
    if template == "" then Hidden
    else
      var s := Substituted(template, human, pic, idx, total);
      var gaps := Count(template, Gap);
      match Truncate(s, gaps, cols, pic.name, mark)
      case None => IndexOutOfRange
      case Some(t) => Shown(Justify(t, gaps, cols))
  }

  /** The spaces given to the first `n` gaps. */
  function GapTotal(n: nat, gapSize: nat, rem: nat): nat {
    if n == 0 then 0 else GapTotal(n - 1, gapSize, rem) + GapWidth(n - 1, gapSize, rem)
  }

  /** `n` gaps receive `n` even shares and one extra space for each of the first `rem`. */
  lemma {:induction false} GapTotalClosed(n: nat, gapSize: nat, rem: nat)
    ensures GapTotal(n, gapSize, rem) == n * gapSize + (if n <= rem then n else rem)
  {
    if n > 0 {
      GapTotalClosed(n - 1, gapSize, rem);
      assert (n - 1) * gapSize + gapSize == n * gapSize;
    }
  }

  /** Sharing the free columns the way `printStatus` does hands out every one of them. */
  lemma GapsShareFree(free: nat, gaps: nat)
    requires gaps > 0
    ensures GapTotal(gaps, free / gaps, free % gaps) == free
  {
    GapTotalClosed(gaps, free / gaps, free % gaps);
  }

  /** A gap to the left never gets fewer spaces than one to its right, and at most one more. */
  lemma GapsBalanced(free: nat, gaps: nat, i: nat, j: nat)
    requires i <= j < gaps
    ensures var g, r := free / gaps, free % gaps;
            GapWidth(j, g, r) <= GapWidth(i, g, r) <= GapWidth(j, g, r) + 1
    ensures GapWidth(i, free / gaps, free % gaps) == free / gaps || GapWidth(i, free / gaps, free % gaps) == free / gaps + 1
  {
  }

  /** The widths of the pieces added up. */
  function PartsWidth(parts: seq<string>): nat {
    if parts == [] then 0 else PartsWidth(parts[..|parts| - 1]) + Width(parts[|parts| - 1])
  }

  lemma WidthSpaces(n: nat)
    ensures Width(Spaces(n)) == n
  {
    LowCodePointsNarrow(Spaces(n));
    WidthNarrow(Spaces(n));
  }

  /** The line's width is the pieces' plus two columns for each marker between them. */
  lemma {:induction false} JoinWidth(parts: seq<string>)
    requires parts != []
    ensures Width(Join(parts, Gap)) == PartsWidth(parts) + 2 * (|parts| - 1)
    decreases |parts|
  {
    if |parts| > 1 {
      var init := parts[..|parts| - 1];
      var last := parts[|parts| - 1];
      assert parts == init + [last];
      JoinSnoc(init, last, Gap);
      JoinWidth(init);
      WidthAppend(Join(init, Gap) + Gap, last);
      WidthAppend(Join(init, Gap), Gap);
      assert Width(Gap) == 2;
    }
  }

  /** The laid-out line's width is the pieces' plus the spaces given to the gaps. */
  lemma {:induction false} LayoutWidth(parts: seq<string>, gapSize: nat, rem: nat)
    requires parts != []
    ensures Width(Layout(parts, gapSize, rem)) == PartsWidth(parts) + GapTotal(|parts| - 1, gapSize, rem)
    decreases |parts|
  {
    if |parts| > 1 {
      var init := parts[..|parts| - 1];
      LayoutWidth(init, gapSize, rem);
      var spaces := Spaces(GapWidth(|parts| - 2, gapSize, rem));
      WidthAppend(Layout(init, gapSize, rem) + spaces, parts[|parts| - 1]);
      WidthAppend(Layout(init, gapSize, rem), spaces);
      WidthSpaces(GapWidth(|parts| - 2, gapSize, rem));
    }
  }

  /**
   * When the line holds exactly as many markers as gaps are counted, filling the gaps makes
   * it exactly as wide as the terminal, unless its content alone is already wider.
   */
  lemma FillLaw(s: string, gaps: nat, cols: int)
    requires gaps > 0 && Count(s, Gap) == gaps
    ensures var content := Width(s) - 2 * gaps;
            content >= 0 && Width(Justify(s, gaps, cols)) == if content >= cols then content else cols
  {
    var free := Free(s, gaps, cols);
    var gapSize, rem := free / gaps, free % gaps;
    GapsShareFree(free, gaps);
    var parts := Split(s, Gap);
    SplitCount(s, Gap);
    JoinSplit(s, Gap);
    JoinWidth(parts);
    LayoutWidth(parts, gapSize, rem);
  }

  /**
   * The status line as drawn: when the truncated line still holds as many markers as the
   * template, it fills the terminal exactly, unless its content alone is already wider.
   */
  lemma StatusFillsTerminal(template: string, mark: string, human: bool, cols: int, pic: Picture, idx: int, total: int)
    requires template != "" && Count(template, Gap) > 0
    requires var t := Truncate(Substituted(template, human, pic, idx, total), Count(template, Gap), cols, pic.name, mark);
             t.Some? && Count(t.value, Gap) == Count(template, Gap)
    ensures var gaps := Count(template, Gap);
            var t := Truncate(Substituted(template, human, pic, idx, total), gaps, cols, pic.name, mark).value;
            var content := Width(t) - 2 * gaps;
            var r := Status(template, mark, human, cols, pic, idx, total);
            r.Shown? && Width(r.text) == if content >= cols then content else cols
  {
    var gaps := Count(template, Gap);
    var t := Truncate(Substituted(template, human, pic, idx, total), gaps, cols, pic.name, mark).value;
    FillLaw(t, gaps, cols);
  }

  /** A line without markers is drawn as it is, whatever gap count it is laid out for. */
  lemma NoMarkerDrawnAsIs(t: string, gaps: nat, cols: int)
    requires Count(t, Gap) == 0
    ensures Justify(t, gaps, cols) == t
  {
    SplitCount(t, Gap);
    JoinSplit(t, Gap);
    assert Split(t, Gap) == [t];
  }

  /**
   * A template without `%=` whose truncated line has no marker either is shown as the
   * truncated line itself: there is nothing to fill.
   */
  lemma NoGapStatusAsIs(template: string, mark: string, human: bool, cols: int, pic: Picture, idx: int, total: int)
    requires template != "" && Count(template, Gap) == 0
    requires var t := Truncate(Substituted(template, human, pic, idx, total), 0, cols, pic.name, mark);
             t.Some? && Count(t.value, Gap) == 0
    ensures Status(template, mark, human, cols, pic, idx, total)
            == Shown(Truncate(Substituted(template, human, pic, idx, total), 0, cols, pic.name, mark).value)
  {
    var t := Truncate(Substituted(template, human, pic, idx, total), 0, cols, pic.name, mark).value;
    NoMarkerDrawnAsIs(t, 0, cols);
  }

  /**
   * Cutting the whole line: on a line of one-column code points, whatever the mark, the
   * result takes exactly the terminal's columns plus the markers' two columns each.
   */
  lemma LineCutFits(s: string, gaps: nat, cols: int, name: string, mark: string)
    requires Narrow(s)
    requires Excess(s, gaps, cols) > 0 && Excess(s, gaps, cols) >= Width(name)
    requires Width(mark) <= cols + 2 * gaps
    ensures Truncate(s, gaps, cols, name, mark).Some?
    ensures Width(Truncate(s, gaps, cols, name, mark).value) == cols + 2 * gaps
  {
    WidthNarrow(s);
    var k := Excess(s, gaps, cols) + Width(mark);
    WidthNarrow(s[k..]);
    WidthAppend(mark, s[k..]);
  }

  /**
   * Cutting inside the file name: when the name occurs in a line of one-column code points,
   * the line ends up exactly as wide as the terminal plus its markers.
   */
  lemma NameCutFits(s: string, gaps: nat, cols: int, name: string, mark: string)
    requires Narrow(s) && Narrow(name) && Contains(s, name)
    requires 0 < Excess(s, gaps, cols) < Width(name)
    requires Excess(s, gaps, cols) + Width(mark) <= |name|
    ensures Truncate(s, gaps, cols, name, mark).Some?
    ensures Width(Truncate(s, gaps, cols, name, mark).value) == cols + 2 * gaps
  {
    var k := Excess(s, gaps, cols) + Width(mark);
    var rep := mark + name[k..];
    assert name != [];
    assert Truncate(s, gaps, cols, name, mark) == Some(ReplaceFirst(s, name, rep));
    MarkedTailWidth(mark, name, k);
    ReplaceWidth(s, name, rep);
  }

  /** The mark followed by the one-column code points of `name` from index `k`. */
  lemma MarkedTailWidth(mark: string, name: string, k: nat)
    requires Narrow(name) && k <= |name|
    ensures Width(mark + name[k..]) == Width(mark) + |name| - k
  {
    NarrowSlice(name, k, |name|);
    WidthNarrow(name[k..]);
    WidthAppend(mark, name[k..]);
  }

  /** Replacing the first occurrence of `name` in a one-column line changes its width by the difference. */
  lemma ReplaceWidth(s: string, name: string, rep: string)
    requires Narrow(s) && name != [] && Contains(s, name)
    ensures Width(ReplaceFirst(s, name, rep)) == Width(s) - |name| + Width(rep)
  {
    var at := ReplaceFirstSpec(s, name, rep);
    SpliceWidth(s, at.value, name, rep);
  }

  /** Putting `rep` in place of an occurrence of `name` in a one-column line changes its width by the difference. */
  lemma SpliceWidth(s: string, i: nat, name: string, rep: string)
    requires Narrow(s) && OccursAt(s, name, i)
    ensures Width(s[..i] + rep + s[i + |name|..]) == Width(s) - |name| + Width(rep)
  {
    var before, after := s[..i], s[i + |name|..];
    assert s == before + name + after;
    NarrowSlice(s, 0, i);
    NarrowSlice(s, i + |name|, |s|);
    NarrowSlice(s, i, i + |name|);
    WidthNarrow(before);
    WidthNarrow(after);
    WidthNarrow(name);
    WidthNarrow(s);
    WidthAppend(before, rep);
    WidthAppend(before + rep, after);
  }

  /**
   * With one-column text and a mark no wider than one column, on a terminal at least one
   * column wide, the slice index stays in range: truncation never panics.
   */
  lemma TruncateInRange(s: string, gaps: nat, cols: int, name: string, mark: string)
    requires Narrow(s) && Narrow(name) && Width(mark) <= 1 && cols >= 1
    ensures Truncate(s, gaps, cols, name, mark).Some?
  {
    WidthNarrow(s);
    WidthNarrow(name);
  }

  /**
   * The name is looked for in the line only after the choice of branch: when the overrun is
   * narrower than the name but the name does not occur, the line is left as it was, still
   * overrunning the terminal.
   */
  lemma AbsentNameNotCut(s: string, gaps: nat, cols: int, name: string, mark: string)
    requires !Contains(s, name)
    requires 0 < Excess(s, gaps, cols) < Width(name)
    requires Excess(s, gaps, cols) + Width(mark) <= |name|
    ensures Truncate(s, gaps, cols, name, mark) == Some(s)
  {
    var k := Excess(s, gaps, cols) + Width(mark);
    var _ := ReplaceFirstSpec(s, name, mark + name[k..]);
  }

  /**
   * The overrun is counted in columns and the slice index in code points, so a name of
   * three two-column code points shown alone on a two-column terminal panics.
   */
  lemma WideNameOverruns(c: char, mark: string, human: bool, pic: Picture, idx: int, total: int)
    requires RuneWidth(c) == 2 && pic.name == [c, c, c] && pic.width != 0
    ensures Status("%f", mark, human, 2, pic, idx, total) == IndexOutOfRange
  {
    var table := StatusTable(pic, idx, total, SizeText(pic.size, human));
    assert ExpandPercent("%f", table) == pic.name by {
      assert "%f"[2..] == [];
    }
    assert Count("%f", Gap) == 0 by {
      assert "%f"[..2] != Gap;
      assert "%f"[1..] == "f";
    }
    assert Width(pic.name) == 6 by {
      assert [c][1..] == [];
      assert Width([c]) == 2;
      assert [c, c][1..] == [c];
      assert Width([c, c]) == 4;
      assert pic.name[1..] == [c, c];
    }
  }

  /** An image that could not be measured shows `N/A` for its dimensions. */
  lemma UnmeasuredShowsNA(pic: Picture, idx: int, total: int, size: string)
    requires pic.width == 0 && pic.height == 0
    ensures FixUp(ExpandPercent("%wx%h", StatusTable(pic, idx, total, size)), pic) == "N/A"
  {
    var table := StatusTable(pic, idx, total, size);
    assert Itoa(0) == "0";
    assert ExpandPercent("%wx%h", table) == "0x0" by {
      assert "%wx%h"[2..] == "x%h";
      assert "x%h"[1..] == "%h";
      assert "%h"[2..] == [];
    }
    assert ReplaceAll("0x0", "0x0", "N/A") == "N/A" by {
      assert "0x0"[3..] == [];
    }
    assert !Contains("N/A", "0X0") by {
      assert !OccursAt("N/A", "0X0", 0);
    }
    ReplaceAllAbsent("N/A", "0X0", "N/A");
  }

  /**
   * `printStatus`: reassigns the line through substitution, fix-up and truncation, then
   * appends the pieces and their gaps to a builder.
   */
  method PrintStatus(template: string, mark: string, human: bool, cols: int, pic: Picture, idx: int, total: int)
    returns (r: StatusLine)
    ensures r == Status(template, mark, human, cols, pic, idx, total)
  {
    if template == "" {
      return Hidden;
    }
    var size := SizeText(pic.size, human);
    var s := ExpandPercent(template, StatusTable(pic, idx, total, size));
    if pic.height == 0 && pic.width == 0 {
      s := ReplaceAll(ReplaceAll(s, "0x0", "N/A"), "0X0", "N/A");
    }
    var gaps := Count(template, Gap);
    var cut := TruncateLine(s, gaps, cols, pic.name, mark);
    if cut.None? {
      return IndexOutOfRange;
    }
    var line := FillGaps(cut.value, gaps, cols);
    return Shown(line);
  }

  /** The truncation step of `printStatus`, on code-point slices. */
  method TruncateLine(s: string, gaps: nat, cols: int, name: string, mark: string) returns (r: Option<string>)
    ensures r == Truncate(s, gaps, cols, name, mark)
  {
    var w := DisplayWidth(s);
    var excess := (w - gaps * 2) - cols;
    if excess <= 0 {
      return Some(s);
    }
    var nameWidth := DisplayWidth(name);
    var markWidth := DisplayWidth(mark);
    if excess < nameWidth {
      if excess + markWidth > |name| {
        return None;
      }
      return Some(ReplaceFirst(s, name, mark + name[excess + markWidth..]));
    }
    if excess + markWidth > |s| {
      return None;
    }
    return Some(mark + s[excess + markWidth..]);
  }

  /** The gap-filling step of `printStatus`: a builder receives each piece after its spaces. */
  method FillGaps(s: string, gaps: nat, cols: int) returns (line: string)
    ensures line == Justify(s, gaps, cols)
  {
    var w := DisplayWidth(s);
    var free := cols - (w - gaps * 2);
    if free < 0 {
      free := 0;
    }
    assert free == Free(s, gaps, cols);
    var gapSize: nat, rem: nat := 0, 0;
    if gaps > 0 {
      gapSize := free / gaps;
      rem := free % gaps;
    }
    line := LayoutLoop(Split(s, Gap), gapSize, rem);
  }

  /** The loop that writes each piece after its gap's spaces, the leftmost gaps taking the remainder. */
  method LayoutLoop(parts: seq<string>, gapSize: nat, rem: nat) returns (line: string)
    requires |parts| >= 1
    ensures line == Layout(parts, gapSize, rem)
  {
    line := parts[0];
    var i := 0;
    while i < |parts| - 1
      invariant 0 <= i <= |parts| - 1
      invariant line == Layout(parts[..i + 1], gapSize, rem)
    {
      var spaces := gapSize;
      if i < rem {
        spaces := spaces + 1;
      }
      assert parts[..i + 2][..i + 1] == parts[..i + 1];
      line := line + Spaces(spaces) + parts[i + 1];
      i := i + 1;
    }
    assert parts[..|parts|] == parts;
  }
}
