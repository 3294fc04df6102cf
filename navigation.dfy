/**
 * Moving through the catalogue (main.go `next`, `prev`, `startIndex`) and the key loop of
 * `run`, which re-renders only when the current index differs from the last rendered one.
 */
module Navigation {
  import opened Wrappers
  import opened Catalog

  function Min(a: int, b: int): int { if a <= b then a else b }

  function Max(a: int, b: int): int { if a >= b then a else b }

  /**
   * `next`: one step forward over `n` images. With wrap-around the last image is followed
   * by the first; without it the last image is followed by itself.
   */
  function Next(idx: int, n: int, wrap: bool): (r: int)
    requires 0 <= idx < n
    ensures 0 <= r < n
    ensures wrap ==> r == if idx == n - 1 then 0 else idx + 1
    ensures !wrap ==> r == if idx == n - 1 then n - 1 else idx + 1
  {
    if wrap then WrapForward(idx, n); (idx + 1) % n else Min(idx + 1, n - 1)
  }

  /** Within `0 .. n - 1`, adding one modulo `n` steps up, or from the last index back to 0. */
  lemma WrapForward(idx: int, n: int)
    requires 0 <= idx < n
    ensures (idx + 1) % n == if idx == n - 1 then 0 else idx + 1
  {
    if idx == n - 1 {
      ModUnique(idx + 1, n, 1, 0);
    } else {
      ModUnique(idx + 1, n, 0, idx + 1);
    }
  }

  /**
   * `prev`: one step backward. With wrap-around the first image is preceded by the last;
   * without it the first image is preceded by itself.
   */
  function Prev(idx: int, n: int, wrap: bool): (r: int)
    requires 0 <= idx < n
    ensures 0 <= r < n
    ensures wrap ==> r == if idx == 0 then n - 1 else idx - 1
    ensures !wrap ==> r == if idx == 0 then 0 else idx - 1
  {
    if wrap then (idx - 1 + n) % n else Max(0, idx - 1)
  }

  /** `k` forward steps from `idx`. */
  function NextN(idx: int, n: int, wrap: bool, k: nat): (r: int)
    requires 0 <= idx < n
    ensures 0 <= r < n
  {
    if k == 0 then idx else Next(NextN(idx, n, wrap, k - 1), n, wrap)
  }

  /** With wrap-around, `k` forward steps land on `(idx + k) mod n`. */
  lemma {:induction false} NextNWraps(idx: int, n: int, k: nat)
    requires 0 <= idx < n
    ensures NextN(idx, n, true, k) == (idx + k) % n
  {
    if k > 0 {
      NextNWraps(idx, n, k - 1);
      var m := (idx + k - 1) % n;
      assert (idx + k) % n == if m == n - 1 then 0 else m + 1 by {
        ModStep(idx + k - 1, n);
      }
    }
  }

  lemma ModStep(a: nat, n: int)
    requires n >= 1
    ensures (a + 1) % n == if a % n == n - 1 then 0 else a % n + 1
  {
    var q, m := a / n, a % n;
    assert a == q * n + m;
    if m == n - 1 {
      assert a + 1 == q * n + n;
      assert q * n + n == (q + 1) * n;
      ModUnique(a + 1, n, q + 1, 0);
    } else {
      ModUnique(a + 1, n, q, m + 1);
    }
  }

  /** The remainder is the unique `r` in `[0, n)` with `x == q * n + r`. */
  lemma ModUnique(x: int, n: int, q: int, r: int)
    requires n >= 1 && 0 <= r < n && x == q * n + r
    ensures x % n == r
  {
    var q', r' := x / n, x % n;
    assert x == q' * n + r';
    assert (q - q') * n == r' - r;
    if q > q' {
      MulAtLeast(q - q', n);
    } else if q < q' {
      MulAtLeast(q' - q, n);
    }
  }

  lemma MulAtLeast(a: int, n: int)
    requires a >= 1 && n >= 1
    ensures a * n >= n
  {
    assert a * n == (a - 1) * n + n;
    assert (a - 1) * n >= 0;
  }

  /** With wrap-around, `n` forward steps return to the starting image. */
  lemma NextCycle(idx: int, n: int)
    requires 0 <= idx < n
    ensures NextN(idx, n, true, n) == idx
  {
    NextNWraps(idx, n, n);
    ModUnique(idx + n, n, 1, idx);
  }

  /** Without wrap-around, `k` forward steps stop at the last image. */
  lemma {:induction false} NextNClamps(idx: int, n: int, k: nat)
    requires 0 <= idx < n
    ensures NextN(idx, n, false, k) == Min(idx + k, n - 1)
  {
    if k > 0 {
      NextNClamps(idx, n, k - 1);
    }
  }

  /** With wrap-around, a step back undoes a step forward and vice versa. */
  lemma PrevUndoesNext(idx: int, n: int)
    requires 0 <= idx < n
    ensures Prev(Next(idx, n, true), n, true) == idx
    ensures Next(Prev(idx, n, true), n, true) == idx
  {
  }

  /** `filepath.IsAbs`; the operating system's path rules are not part of this model. */
  const IsAbs: string -> bool

  /** `filepath.Abs`: the absolute form of a path, or `None` when the working directory is unknown. */
  const Abs: string -> Option<string>

  /** `filepath.Base`: the last element of a path. */
  const Base: string -> string

  /** The path `-n` named, made absolute when that is possible (`startIndex`). */
  function ResolvedPath(p: string): string {
    if IsAbs(p) then p
    else match Abs(p)
      case Some(a) => a
      case None => p
  }

  /** A picture is the start image when its path or its base name matches. */
  predicate Matches(pic: Picture, path: string, base: string) {
    pic.path == path || pic.name == base
  }

  /**
   * `startIndex`: a 1-based start index is clamped to the catalogue; otherwise an empty
   * start path means the first image; otherwise the first picture whose absolute path or
   * base name matches, and an error when none does.
   */
  method StartIndex(pics: seq<Picture>, startIdx: int, startPath: string) returns (r: Result<nat, string>)
    requires |pics| >= 1
    ensures r.Ok? ==> r.value < |pics|
    ensures startIdx >= 1 ==> r == Ok(if startIdx <= |pics| then startIdx - 1 else |pics| - 1)
    ensures startIdx < 1 && startPath == "" ==> r == Ok(0)
    ensures startIdx < 1 && startPath != "" && r.Ok? ==>
              var path := ResolvedPath(startPath);
              && Matches(pics[r.value], path, Base(path))
              && forall j :: 0 <= j < r.value ==> !Matches(pics[j], path, Base(path))
    ensures startIdx < 1 && startPath != "" && r.Err? ==>
              var path := ResolvedPath(startPath);
              && r.error == "invalid start image"
              && forall j :: 0 <= j < |pics| ==> !Matches(pics[j], path, Base(path))
  {
    if startIdx >= 1 {
      return Ok(Min(startIdx, |pics|) - 1);
    }
    if startPath == "" {
      return Ok(0);
    }
    var path := startPath;
    if !IsAbs(path) {
      var abs := Abs(path);
      if abs.Some? {
        path := abs.value;
      }
    }
    var base := Base(path);
    var i := 0;
    while i < |pics|
      invariant 0 <= i <= |pics|
      invariant forall j :: 0 <= j < i ==> !Matches(pics[j], path, base)
    {
      if pics[i].path == path || pics[i].name == base {
        return Ok(i);
      }
      i := i + 1;
    }
    return Err("invalid start image");
  }

  newtype byte = b: int | 0 <= b < 256

  /** The byte a key sends. */
  function Key(c: char): byte
    requires c as int < 256
  {
    c as int as byte
  }

  /** The two variables of `run`'s loop: the current index and the last rendered one. */
  datatype Cursor = Cursor(curr: int, last: int)

  /** The dirty-check at the top of the loop: render when `last != curr`, and record it. */
  function Refresh(st: Cursor): (seq<int>, Cursor) {
    if st.last != st.curr then ([st.curr], Cursor(st.curr, st.curr)) else ([], st)
  }

  /**
   * The key dispatch of `run`: `None` ends the loop (`q`); `l`/`j` and `h`/`k` step,
   * `g`/`G` jump to the ends, `?` forces a redraw after the help screen by moving `last`
   * off `curr`, and any other byte changes nothing.
   */
  function Dispatch(b: byte, st: Cursor, total: int, wrap: bool): (r: Option<Cursor>)
    requires 0 <= st.curr < total
    ensures r.Some? ==> 0 <= r.value.curr < total
    ensures r.None? <==> b == Key('q')
    ensures !Recognised(b) ==> r == Some(st)
  {
    if b == Key('q') then None
    else if b == Key('l') || b == Key('j') then Some(st.(curr := Next(st.curr, total, wrap)))
    else if b == Key('h') || b == Key('k') then Some(st.(curr := Prev(st.curr, total, wrap)))
    else if b == Key('g') then Some(st.(curr := 0))
    else if b == Key('G') then Some(st.(curr := total - 1))
    else if b == Key('?') then Some(st.(last := st.last - 1))
    else Some(st)
  }

  /** A byte the loop acts on. */
  predicate Recognised(b: byte) {
    b in {Key('q'), Key('l'), Key('j'), Key('h'), Key('k'), Key('g'), Key('G'), Key('?')}
  }

  /**
   * The indices `run` renders, in order, from loop state `st` on the remaining input:
   * each pass renders if dirty, then reads one byte; end of input and `q` stop the loop.
   */
  function Renders(st: Cursor, input: seq<byte>, total: int, wrap: bool): seq<int>
    requires 0 <= st.curr < total
    decreases |input|
  {
    var (shown, st') := Refresh(st);
    shown + if input == [] then []
            else match Dispatch(input[0], st', total, wrap)
              case None => []
              case Some(st'') => Renders(st'', input[1..], total, wrap)
  }

  /**
   * The key loop of `run`, reading bytes from `input`: returns the indices it renders,
   * which are those of `Renders` from the initial state (`last` is -1, so the start image is
   * drawn first).
   */
  method Run(total: int, start: int, wrap: bool, input: seq<byte>) returns (rendered: seq<int>)
    requires 0 <= start < total
    ensures rendered == Renders(Cursor(start, -1), input, total, wrap)
  {
    var curr, last := start, -1;
    var pos := 0;
    rendered := [];
    while true
      invariant 0 <= pos <= |input| && 0 <= curr < total
      invariant rendered + Renders(Cursor(curr, last), input[pos..], total, wrap)
                == Renders(Cursor(start, -1), input, total, wrap)
      decreases |input| - pos
    {
      ghost var st := Cursor(curr, last);
      ghost var before := rendered;
      if last != curr {
        last := curr;
        rendered := rendered + [curr];
      }
      ghost var st' := Cursor(curr, last);
      assert rendered == before + Refresh(st).0 && st' == Refresh(st).1;
      RendersUnfold(st, input[pos..], total, wrap);
      if pos == |input| {
        return;
      }
      var b := input[pos];
      ghost var rest := input[pos..];
      assert rest[0] == b && rest[1..] == input[pos + 1..];
      pos := pos + 1;
      var stop;
      stop, curr, last := HandleKey(b, curr, last, total, wrap);
      if stop {
        return;
      }
      assert Renders(st, rest, total, wrap) == Refresh(st).0 + Renders(Cursor(curr, last), input[pos..], total, wrap);
      ConcatAssoc(before, Refresh(st).0, Renders(Cursor(curr, last), input[pos..], total, wrap));
    }
  }

  /** The switch on one key byte: whether it ends the loop, and otherwise the new `curr` and `last`. */
  method HandleKey(b: byte, curr: int, last: int, total: int, wrap: bool) returns (stop: bool, curr': int, last': int)
    requires 0 <= curr < total
    ensures stop <==> Dispatch(b, Cursor(curr, last), total, wrap).None?
    ensures !stop ==> Dispatch(b, Cursor(curr, last), total, wrap) == Some(Cursor(curr', last'))
  {
    stop, curr', last' := false, curr, last;
    if b == Key('q') {
      stop := true;
    } else if b == Key('l') || b == Key('j') {
      curr' := Next(curr, total, wrap);
    } else if b == Key('h') || b == Key('k') {
      curr' := Prev(curr, total, wrap);
    } else if b == Key('g') {
      curr' := 0;
    } else if b == Key('G') {
      curr' := total - 1;
    } else if b == Key('?') {
      last' := last - 1;
    }
  }

  lemma RendersUnfold(st: Cursor, input: seq<byte>, total: int, wrap: bool)
    requires 0 <= st.curr < total
    ensures input == [] ==> Renders(st, input, total, wrap) == Refresh(st).0
    ensures input != [] ==>
              Renders(st, input, total, wrap)
              == Refresh(st).0 + match Dispatch(input[0], Refresh(st).1, total, wrap)
                                   case None => []
                                   case Some(st'') => Renders(st'', input[1..], total, wrap)
  {
  }

  /** Every rendered index is a valid catalogue index. */
  lemma {:induction false} RendersInRange(st: Cursor, input: seq<byte>, total: int, wrap: bool)
    requires 0 <= st.curr < total
    ensures forall i :: 0 <= i < |Renders(st, input, total, wrap)| ==> 0 <= Renders(st, input, total, wrap)[i] < total
    decreases |input|
  {
    var st' := Refresh(st).1;
    if input != [] {
      match Dispatch(input[0], st', total, wrap)
      case None =>
      case Some(st'') => RendersInRange(st'', input[1..], total, wrap);
    }
  }

  /** Each byte read causes at most one render, after the first one. */
  lemma {:induction false} RendersBound(st: Cursor, input: seq<byte>, total: int, wrap: bool)
    requires 0 <= st.curr < total
    ensures |Renders(st, input, total, wrap)| <= |input| + 1
    decreases |input|
  {
    var st' := Refresh(st).1;
    if input != [] {
      match Dispatch(input[0], st', total, wrap)
      case None =>
      case Some(st'') => RendersBound(st'', input[1..], total, wrap);
    }
  }

  /** The first frame drawn is the start image. */
  lemma FirstRenderIsStart(start: int, input: seq<byte>, total: int, wrap: bool)
    requires 0 <= start < total
    ensures |Renders(Cursor(start, -1), input, total, wrap)| >= 1
    ensures Renders(Cursor(start, -1), input, total, wrap)[0] == start
  {
  }

  /** After a render, a byte the loop does not recognise draws nothing and changes nothing. */
  lemma IdleKeyRendersNothing(st: Cursor, b: byte, rest: seq<byte>, total: int, wrap: bool)
    requires 0 <= st.curr < total && st.last == st.curr
    requires !Recognised(b)
    ensures Renders(st, [b] + rest, total, wrap) == Renders(st, rest, total, wrap)
  {
    assert ([b] + rest)[1..] == rest;
  }

  /** `q` ends the loop: nothing after it is read or drawn. */
  lemma QuitStops(st: Cursor, rest: seq<byte>, total: int, wrap: bool)
    requires 0 <= st.curr < total && st.last == st.curr
    ensures Renders(st, [Key('q')] + rest, total, wrap) == []
  {
  }

  /** `?` redraws the current image once, then carries on as before. */
  lemma HelpRedraws(st: Cursor, rest: seq<byte>, total: int, wrap: bool)
    requires 0 <= st.curr < total && st.last == st.curr
    ensures Renders(st, [Key('?')] + rest, total, wrap) == [st.curr] + Renders(st, rest, total, wrap)
  {
    assert ([Key('?')] + rest)[1..] == rest;
  }

  /**
   * A navigation key renders exactly when it moves the index: `g` at the first image,
   * or a clamped step at either end, draws nothing.
   */
  lemma MoveRendersIffMoved(st: Cursor, b: byte, rest: seq<byte>, total: int, wrap: bool)
    requires 0 <= st.curr < total && st.last == st.curr
    requires b in {Key('l'), Key('j'), Key('h'), Key('k'), Key('g'), Key('G')}
    ensures var st' := Dispatch(b, st, total, wrap).value;
            Renders(st, [b] + rest, total, wrap)
            == (if st'.curr == st.curr then [] else [st'.curr]) + Renders(Cursor(st'.curr, st'.curr), rest, total, wrap)
  {
    assert ([b] + rest)[1..] == rest;
  }
}
