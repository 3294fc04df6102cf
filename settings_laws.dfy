/**
 * What loading a configuration file does and does not do, and that the file written by
 * `options.String` loads back to the settings it was written from.
 */
module SettingsLaws {
  import opened Wrappers
  import opened Strs
  import opened Columns
  import opened Quoting
  import opened Settings

  /** A line that is blank after trimming changes nothing. */
  lemma BlankLineSkipped(o: Options, raw: string)
    requires AllSpace(raw)
    ensures ApplyLine(o, raw) == Ok(o)
  {
    TrimSpaceEmpty(raw);
  }

  /** A line whose first code point after white space is `#` or `;` is a comment. */
  lemma CommentLineSkipped(o: Options, raw: string)
    requires TrimLeft(raw) != [] && (TrimLeft(raw)[0] == '#' || TrimLeft(raw)[0] == ';')
    ensures ApplyLine(o, raw) == Ok(o)
  {
    TrimSpaceFirst(raw);
  }

  /** A line without `=` changes nothing. */
  lemma NoEqualsSkipped(o: Options, raw: string)
    requires '=' !in raw
    ensures ApplyLine(o, raw) == Ok(o)
  {
    var line := TrimSpace(raw);
    if '=' in line {
      TrimSpaceWithin(raw, '=');
    }
    CutSpec(line, '=');
  }

  /**
   * A `key=value` line whose parts need no trimming is read as that key and value (split at
   * the first `=`, so the value may hold more), the value unquoted when it is a literal.
   */
  lemma ParseAssignment(key: string, val: string)
    requires key != [] && !IsSpace(key[0]) && !IsSpace(key[|key| - 1])
    requires key[0] != '#' && key[0] != ';' && '=' !in key
    requires val != [] && !IsSpace(val[0]) && !IsSpace(val[|val| - 1])
    ensures ParseLine(key + "=" + val) == Some((key, match Unquote(val) case Some(u) => u case None => val))
  {
    var line := key + "=" + val;
    assert line[0] == key[0] && line[|line| - 1] == val[|val| - 1];
    TrimSpaceKeeps(line);
    assert line == key + ['='] + val;
    CutAt(key, '=', val);
    TrimSpaceKeeps(key);
    TrimSpaceKeeps(val);
  }

  /**
   * White space around the line, around the key and around the value is trimmed away: the
   * line reads as the bare key and value, the value unquoted when it is a literal.
   */
  lemma ParseSpaced(ws1: string, key: string, ws2: string, ws3: string, val: string, ws4: string)
    requires AllSpace(ws1) && AllSpace(ws2) && AllSpace(ws3) && AllSpace(ws4)
    requires key != [] && !IsSpace(key[0]) && !IsSpace(key[|key| - 1])
    requires key[0] != '#' && key[0] != ';' && '=' !in key
    requires val != [] && !IsSpace(val[0]) && !IsSpace(val[|val| - 1])
    ensures ParseLine(ws1 + key + ws2 + "=" + ws3 + val + ws4)
      == Some((key, match Unquote(val) case Some(u) => u case None => val))
  {
    var left := key + ws2;
    var right := ws3 + val;
    var inner := left + ['='] + right;
    SpacedLine(ws1, key, ws2, ws3, val, ws4);
    assert inner[0] == key[0] && inner[|inner| - 1] == val[|val| - 1];
    TrimSpaceAround(ws1, inner, ws4);
    assert '=' !in left by {
      assert forall i :: 0 <= i < |ws2| ==> IsSpace(ws2[i]);
    }
    CutAt(left, '=', right);
    TrimSpaceAround([], key, ws2);
    assert [] + key + ws2 == left;
    TrimSpaceAround(ws3, val, []);
    assert ws3 + val + [] == right;
  }

  /** The spaced line regrouped as its trimmed middle between the outer white space. */
  lemma SpacedLine(ws1: string, key: string, ws2: string, ws3: string, val: string, ws4: string)
    ensures ws1 + key + ws2 + "=" + ws3 + val + ws4 == ws1 + ((key + ws2) + ['='] + (ws3 + val)) + ws4
  {
  }

  /** The keys of the bool fields. */
  predicate BoolKey(key: string) {
    key == "humanreadable" || key == "title" || key == "wrapscroll"
  }

  /** A bool field given a value `ParseBool` rejects is an error naming the key and the value. */
  lemma BadBoolRejected(o: Options, key: string, val: string)
    requires BoolKey(key) && ParseBool(val).None?
    ensures Assign(o, key, val) == Err(InvalidBool(key, val))
  {
  }

  /** A truncation mark is accepted exactly when it is one column wide. */
  lemma TruncateCharChecked(o: Options, val: string)
    ensures Assign(o, "truncatechar", val).Ok? <==> Width(val) == 1
    ensures Assign(o, "truncatechar", val).Ok? ==> Assign(o, "truncatechar", val).value == o.(truncatechar := val)
  {
  }

  /** A key naming no field is an error. */
  lemma UnknownKeyRejected(o: Options, key: string, val: string)
    requires key !in FieldNames
    ensures Assign(o, key, val) == Err(UnknownOption(key))
  {
    assert forall i :: 0 <= i < |FieldNames| ==> FieldNames[i] != key;
  }

  /** A key sets its own field and leaves every other field as it was. */
  lemma OwnFieldOnly(o: Options, i: nat, val: string)
    requires i < FieldCount && Assign(o, FieldNames[i], val).Ok?
    ensures forall j :: 0 <= j < FieldCount && j != i ==> Get(Assign(o, FieldNames[i], val).value, j) == Get(o, j)
  {
    match i
    case 0 =>
    case 1 =>
    case 2 =>
    case 3 =>
    case 4 =>
    case 5 =>
    case 6 =>
    case 7 =>
    case 8 =>
  }

  /** A later line for the same key overrides an earlier one. */
  lemma LastWriteWins(o: Options, key: string, first: string, second: string)
    requires Assign(o, key, first).Ok?
    ensures Assign(Assign(o, key, first).value, key, second) == Assign(o, key, second)
  {
    var o1 := Assign(o, key, first).value;
    if key == "cleaner" {
      assert Assign(o1, key, second) == Ok(o1.(cleaner := second));
    } else if key == "errorfmt" {
      assert Assign(o1, key, second) == Ok(o1.(errorfmt := second));
    } else if key == "extensions" {
      assert Assign(o1, key, second) == Ok(o1.(extensions := Extensions(second)));
    } else if key == "humanreadable" {
    } else if key == "previewer" {
      assert Assign(o1, key, second) == Ok(o1.(previewer := second));
    } else if key == "statusline" {
      assert Assign(o1, key, second) == Ok(o1.(statusline := second));
    } else if key == "title" {
    } else if key == "truncatechar" {
    } else if key == "wrapscroll" {
    }
  }

  /** Loading a file in two parts: the second part starts from where the first left off, unless it failed. */
  lemma {:induction false} LoadAppend(o: Options, a: seq<string>, b: seq<string>)
    ensures Load(o, a + b) == if Load(o, a).1.Some? then Load(o, a) else Load(Load(o, a).0, b)
    decreases |a|
  {
    if a == [] {
      assert a + b == b;
    } else {
      assert (a + b)[0] == a[0] && (a + b)[1..] == a[1..] + b;
      match ApplyLine(o, a[0])
      case Err(_) =>
      case Ok(o') => LoadAppend(o', a[1..], b);
    }
  }

  /**
   * The first bad line stops loading: what the lines before it set is kept, the line's
   * own field is left as it was, and the lines after it are not read.
   */
  lemma LoadStopsAtError(o: Options, before: seq<string>, bad: string, after: seq<string>)
    requires Load(o, before).1.None? && ApplyLine(Load(o, before).0, bad).Err?
    ensures Load(o, before + [bad] + after) == (Load(o, before).0, Some(ApplyLine(Load(o, before).0, bad).error))
  {
    assert before + [bad] + after == before + ([bad] + after);
    LoadAppend(o, before, [bad] + after);
  }

  /** How many of the items hold something other than white space. */
  function NonBlank(items: seq<string>): (n: nat)
    ensures n <= |items|
  {
    if items == [] then 0 else NonBlank(items[..|items| - 1]) + (if AllSpace(items[|items| - 1]) then 0 else 1)
  }

  /** With no item that holds anything but white space, there is nothing to count. */
  lemma {:induction false} AllBlank(items: seq<string>)
    ensures (forall k :: 0 <= k < |items| ==> AllSpace(items[k])) ==> NonBlank(items) == 0
    decreases |items|
  {
    if items != [] {
      AllBlank(items[..|items| - 1]);
    }
  }

  /** One item gives one entry, or none when it is white space alone. */
  lemma DottedCount(item: string)
    ensures |Dotted(item)| == if AllSpace(item) then 0 else 1
  {
    TrimSpaceEmpty(item);
  }

  /**
   * Every stored extension starts with a dot, and blank items are dropped: there is one
   * entry per item holding something other than white space, and none when all are blank.
   */
  lemma DottedAllDotted(items: seq<string>)
    ensures forall k :: 0 <= k < |DottedAll(items)| ==> DottedAll(items)[k] != [] && DottedAll(items)[k][0] == '.'
    ensures |DottedAll(items)| == NonBlank(items)
    ensures (forall k :: 0 <= k < |items| ==> AllSpace(items[k])) ==> DottedAll(items) == []
  {
    DottedAllStartsWithDot(items);
    DottedAllCount(items);
    AllBlank(items);
  }

  /** Every entry `DottedAll` gives starts with a dot. */
  lemma {:induction false} DottedAllStartsWithDot(items: seq<string>)
    ensures forall k :: 0 <= k < |DottedAll(items)| ==> DottedAll(items)[k] != [] && DottedAll(items)[k][0] == '.'
    decreases |items|
  {
    if items != [] {
      DottedAllStartsWithDot(items[..|items| - 1]);
    }
  }

  /** One entry per item that is not white space alone. */
  lemma {:induction false} DottedAllCount(items: seq<string>)
    ensures |DottedAll(items)| == NonBlank(items)
    decreases |items|
  {
    if items != [] {
      DottedAllCount(items[..|items| - 1]);
      DottedCount(items[|items| - 1]);
    }
  }

  lemma ExtensionsDotted(val: string)
    ensures forall k :: 0 <= k < |Extensions(val)| ==> Extensions(val)[k] != [] && Extensions(val)[k][0] == '.'
    ensures |Extensions(val)| <= Count(val, ",") + 1
  {
    DottedAllDotted(Split(val, ","));
    SplitCount(val, ",");
  }

  /** An extension the file can hold: a dot, then at least one code point, none of them a dot first, a comma or white space. */
  predicate StorableExtension(e: string) {
    |e| >= 2 && e[0] == '.' && e[1] != '.' && NoSpace(e) && ',' !in e && Verbatim(e)
  }

  /**
   * Settings the written file reproduces exactly: the strings are printable without quotes
   * or backslashes (so `strconv.Quote` writes them as they are), the truncation mark is one
   * column wide, and every extension is storable.
   */
  predicate Storable(o: Options) {
    && Verbatim(o.cleaner) && Verbatim(o.errorfmt) && Verbatim(o.previewer) && Verbatim(o.statusline)
    && Verbatim(o.truncatechar) && Width(o.truncatechar) == 1
    && forall k :: 0 <= k < |o.extensions| ==> StorableExtension(o.extensions[k])
  }

  lemma {:induction false} VerbatimJoin(xs: seq<string>, sep: string)
    requires Verbatim(sep) && forall k :: 0 <= k < |xs| ==> Verbatim(xs[k])
    ensures Verbatim(Join(xs, sep))
    decreases |xs|
  {
    if |xs| > 1 {
      VerbatimJoin(xs[1..], sep);
      var t := Join(xs[1..], sep);
      var j := xs[0] + sep + t;
      assert forall i :: 0 <= i < |j| ==> j[i] == (if i < |xs[0]| then xs[0][i] else if i < |xs[0]| + |sep| then sep[i - |xs[0]|] else t[i - |xs[0]| - |sep|]);
    }
  }

  lemma {:induction false} DottedAllUndotted(exts: seq<string>)
    requires forall k :: 0 <= k < |exts| ==> StorableExtension(exts[k])
    ensures DottedAll(Undotted(exts)) == exts
    decreases |exts|
  {
    if exts != [] {
      var init := exts[..|exts| - 1];
      var e := exts[|exts| - 1];
      var u := Undotted(exts);
      UndottedSnoc(exts);
      DottedAllUndotted(init);
      DottedUndotted(e);
      calc {
        DottedAll(u);
        DottedAll(Undotted(init)) + Dotted(TrimPrefix(e, "."));
        init + [e];
        { assert exts == init + [e]; }
        exts;
      }
    }
  }

  /** Removing the dots from a list, its last entry apart from the others. */
  lemma UndottedSnoc(exts: seq<string>)
    requires exts != []
    ensures var u := Undotted(exts);
            u[..|exts| - 1] == Undotted(exts[..|exts| - 1]) && u[|u| - 1] == TrimPrefix(exts[|exts| - 1], ".")
  {
  }

  /** One storable extension, written without its dot, reads back as itself. */
  lemma DottedUndotted(e: string)
    requires StorableExtension(e)
    ensures Dotted(TrimPrefix(e, ".")) == [e]
  {
    var x := e[1..];
    assert TrimPrefix(e, ".") == x;
    assert NoSpace(x);
    TrimSpaceKeeps(x);
    assert "." + x == e;
  }

  /** The extension list written undotted and comma-joined reads back as the same list. */
  lemma ExtensionsRoundTrip(exts: seq<string>)
    requires forall k :: 0 <= k < |exts| ==> StorableExtension(exts[k])
    ensures Extensions(Join(Undotted(exts), ",")) == exts
  {
    var u := Undotted(exts);
    if exts == [] {
      assert Split([], ",") == [[]];
      assert DottedAll([[]]) == DottedAll([]) + Dotted([]);
    } else {
      assert forall k :: 0 <= k < |u| ==> ',' !in u[k] by {
        forall k | 0 <= k < |u| ensures ',' !in u[k] {
          assert u[k] == exts[k][1..];
        }
      }
      SplitJoin(u, ',');
      DottedAllUndotted(exts);
    }
  }

  /** The default truncation mark is one column wide, so a file that sets it is accepted. */
  lemma DefaultMarkAccepted(o: Options)
    ensures Assign(o, "truncatechar", Defaults.truncatechar) == Ok(o.(truncatechar := Defaults.truncatechar))
  {
    assert Width(Defaults.truncatechar) == 1 by {
      assert Defaults.truncatechar[1..] == [];
    }
  }

  /** The default extension list, written undotted and comma-joined, reads back as itself. */
  lemma DefaultExtensionsRoundTrip()
    ensures Extensions(Join(Undotted(Defaults.extensions), ",")) == Defaults.extensions
  {
    DefaultExtensionsStorable();
    ExtensionsRoundTrip(Defaults.extensions);
  }

  lemma DefaultExtensionsStorable()
    ensures forall k :: 0 <= k < |Defaults.extensions| ==> StorableExtension(Defaults.extensions[k])
  {
    forall k | 0 <= k < |Defaults.extensions| ensures StorableExtension(Defaults.extensions[k]) {
      LowerExtension(Defaults.extensions[k]);
    }
  }

  /** A dot followed by lower-case ASCII letters is a storable extension. */
  lemma LowerExtension(e: string)
    requires |e| >= 2 && e[0] == '.' && forall k :: 1 <= k < |e| ==> 'a' <= e[k] <= 'z'
    ensures StorableExtension(e)
  {
  }

  /** `o` with its first `n` fields taken from `src`. */
  function CopyFirst(o: Options, src: Options, n: nat): Options
    requires n <= FieldCount
  {
    if n == 0 then o else CopyField(CopyFirst(o, src, n - 1), src, n - 1)
  }

  lemma {:induction false} CopyFirstGets(o: Options, src: Options, n: nat)
    requires n <= FieldCount
    ensures forall j :: 0 <= j < n ==> Get(CopyFirst(o, src, n), j) == Get(src, j)
  {
    if n > 0 {
      CopyFirstGets(o, src, n - 1);
    }
  }

  /** Copying every field gives the source. */
  lemma CopyAll(o: Options, src: Options)
    ensures CopyFirst(o, src, FieldCount) == src
  {
    CopyFirstGets(o, src, FieldCount);
    var r := CopyFirst(o, src, FieldCount);
    assert Get(r, 0) == Get(src, 0) && Get(r, 1) == Get(src, 1) && Get(r, 2) == Get(src, 2);
    assert Get(r, 3) == Get(src, 3) && Get(r, 4) == Get(src, 4) && Get(r, 5) == Get(src, 5);
    assert Get(r, 6) == Get(src, 6) && Get(r, 7) == Get(src, 7) && Get(r, 8) == Get(src, 8);
  }

  /** Lines starting with `#` are read past without effect. */
  lemma {:induction false} CommentsSkipped(o: Options, lines: seq<string>)
    requires forall k :: 0 <= k < |lines| ==> lines[k] != [] && lines[k][0] == '#'
    ensures Load(o, lines) == (o, None)
    decreases |lines|
  {
    if lines != [] {
      CommentLineSkipped(o, lines[0]);
      CommentsSkipped(o, lines[1..]);
    }
  }

  /** The text the loader hands to its key switch for a written value: bools stay as written, strings lose their quotes. */
  function Payload(v: Value): string {
    match v
    case Flag(b) => FormatBool(b)
    case List(exts) => Join(Undotted(exts), ",")
    case Text(t) => t
  }

  /** A written value unquotes to its payload when it was a string, and is kept as it is when it was a bool. */
  lemma ValueReadsBack(o: Options, i: nat)
    requires Storable(o) && i < FieldCount
    ensures (match Unquote(Render(Get(o, i))) case Some(u) => u case None => Render(Get(o, i))) == Payload(Get(o, i))
  {
    match Get(o, i)
    case Text(t) =>
      UnquoteQuote(t);
    case Flag(b) =>
    case List(exts) =>
      var u := Undotted(exts);
      assert forall k :: 0 <= k < |u| ==> Verbatim(u[k]) by {
        forall k | 0 <= k < |u| ensures Verbatim(u[k]) {
          assert u[k] == exts[k][1..];
        }
      }
      VerbatimJoin(u, ",");
      UnquoteQuote(Join(u, ","));
  }

  /** The key switch given field `i`'s name and payload sets that field to its value. */
  lemma PayloadAssigns(x: Options, o: Options, i: nat)
    requires Storable(o) && i < FieldCount
    ensures Assign(x, FieldNames[i], Payload(Get(o, i))) == Ok(CopyField(x, o, i))
  {
    if i < 4 {
      FirstPayloadsAssign(x, o, i);
    } else {
      LastPayloadsAssign(x, o, i);
    }
  }

  lemma FirstPayloadsAssign(x: Options, o: Options, i: nat)
    requires Storable(o) && i < 4
    ensures Assign(x, FieldNames[i], Payload(Get(o, i))) == Ok(CopyField(x, o, i))
  {
    match i
    case 0 =>
    case 1 =>
    case 2 => ExtensionsRoundTrip(o.extensions);
    case 3 => ParseFormatBool(o.humanreadable);
  }

  lemma LastPayloadsAssign(x: Options, o: Options, i: nat)
    requires Storable(o) && 4 <= i < FieldCount
    ensures Assign(x, FieldNames[i], Payload(Get(o, i))) == Ok(CopyField(x, o, i))
  {
    match i
    case 4 =>
    case 5 =>
    case 6 => ParseFormatBool(o.title);
    case 7 =>
    case 8 => ParseFormatBool(o.wrapscroll);
  }

  /** Field `i`'s `name=value` line, read back, sets that field to its value and changes nothing else. */
  lemma AssignmentApplies(x: Options, o: Options, i: nat)
    requires Storable(o) && i < FieldCount
    ensures ApplyLine(x, Assignment(o, i)) == Ok(CopyField(x, o, i))
  {
    NameShape(i);
    ValueShape(Get(o, i));
    ParseAssignment(FieldNames[i], Render(Get(o, i)));
    ValueReadsBack(o, i);
    PayloadAssigns(x, o, i);
  }

  /** Each key is a plain word: no white space at its ends, no `=`, not a comment marker. */
  lemma NameShape(i: nat)
    requires i < FieldCount
    ensures var key := FieldNames[i];
            key != [] && !IsSpace(key[0]) && !IsSpace(key[|key| - 1])
            && key[0] != '#' && key[0] != ';' && '=' !in key && Clean(key)
  {
    forall c | c in FieldNames[i] ensures 'a' <= c <= 'z' {
    }
  }

  /** Each written value is a bare bool or a literal in double quotes. */
  lemma ValueShape(v: Value)
    ensures var r := Render(v); r != [] && !IsSpace(r[0]) && !IsSpace(r[|r| - 1])
  {
  }

  /** Comment lines, then a line with some effect, then at most a blank line: only that line's effect remains. */
  lemma NotedLineLoads(x: Options, cs: seq<string>, line: string, tail: seq<string>, y: Options)
    requires ApplyLine(x, line) == Ok(y)
    requires tail == [] || tail == [""]
    ensures Load(x, CommentLines(cs) + [line] + tail) == (y, None)
  {
    var comments := CommentLines(cs);
    assert forall k :: 0 <= k < |comments| ==> comments[k] != [] && comments[k][0] == '#' by {
      forall k | 0 <= k < |comments| ensures comments[k] != [] && comments[k][0] == '#' {
        assert comments[k] == "# " + cs[k];
      }
    }
    CommentsSkipped(x, comments);
    ConcatAssoc(comments, [line], tail);
    LoadAppend(x, comments, [line] + tail);
    var rest := [line] + tail;
    assert rest[0] == line && rest[1..] == tail;
    if tail != [] {
      BlankLineSkipped(y, "");
      assert tail[0] == "" && tail[1..] == [];
    }
    assert Load(y, tail) == (y, None);
    assert Load(x, rest) == (y, None);
  }

  /** The lines of field `i` set that field and nothing else. */
  lemma BlockLoads(x: Options, o: Options, i: nat)
    requires Storable(o) && i < FieldCount
    ensures Load(x, Block(o, i)) == (CopyField(x, o, i), None)
  {
    AssignmentApplies(x, o, i);
    NotedLineLoads(x, Comments(i), Assignment(o, i), if i < FieldCount - 1 then [""] else [], CopyField(x, o, i));
  }

  /** Lines read without error, then more lines read without error, read without error. */
  lemma LoadThen(x: Options, a: seq<string>, b: seq<string>, y: Options, z: Options)
    requires Load(x, a) == (y, None) && Load(y, b) == (z, None)
    ensures Load(x, a + b) == (z, None)
  {
    LoadAppend(x, a, b);
  }

  /**
   * Blocks each read without error, each from the settings the one before it left, read
   * one after the other without error to the settings the last one leaves.
   */
  lemma {:induction false} ChainLoads(blocks: seq<seq<string>>, states: seq<Options>)
    requires |states| == |blocks| + 1
    requires forall k :: 0 <= k < |blocks| ==> Load(states[k], blocks[k]) == (states[k + 1], None)
    ensures Load(states[0], Concat(blocks)) == (states[|blocks|], None)
    decreases |blocks|
  {
    if blocks != [] {
      var m := |blocks| - 1;
      ChainLoads(blocks[..m], states[..m + 1]);
      LoadThen(states[0], Concat(blocks[..m]), blocks[m], states[m], states[m + 1]);
    }
  }

  /** The settings after each number of fields read, from none to all. */
  function Progress(x: Options, o: Options): (r: seq<Options>)
    ensures |r| == FieldCount + 1 && forall k :: 0 <= k <= FieldCount ==> r[k] == CopyFirst(x, o, k)
  {
    seq(FieldCount + 1, k requires 0 <= k <= FieldCount => CopyFirst(x, o, k))
  }

  /** The lines of all the fields set every field. */
  lemma BlocksLoad(x: Options, o: Options)
    requires Storable(o)
    ensures Load(x, Blocks(o, FieldCount)) == (CopyFirst(x, o, FieldCount), None)
  {
    var blocks, states := FieldBlocks(o)[..FieldCount], Progress(x, o);
    forall k | 0 <= k < |blocks| ensures Load(states[k], blocks[k]) == (states[k + 1], None) {
      BlockLoads(states[k], o, k);
    }
    ChainLoads(blocks, states);
  }

  /** A line the scanner gives back as it is: no line feed and no carriage return. */
  predicate Clean(line: string) {
    '\n' !in line && '\r' !in line
  }

  /**
   * No line of the fixed comment texts holds a line break: each is a short sentence of
   * printable ASCII. This is taken as a hypothesis of the round trip below.
   */
  predicate NotesClean() {
    forall i, k :: 0 <= i < FieldCount && 0 <= k < |Comments(i)| ==> Clean(Comments(i)[k])
  }

  /** A written value holds no line break, whatever the settings. */
  lemma RenderClean(o: Options, i: nat)
    requires i < FieldCount
    ensures Clean(Render(Get(o, i)))
  {
    match Get(o, i)
    case Text(t) =>
      QuoteClean(t);
    case Flag(b) =>
    case List(exts) =>
      QuoteClean(Join(Undotted(exts), ","));
  }

  /** A `name=value` line holds no line break. */
  lemma AssignmentClean(o: Options, i: nat)
    requires i < FieldCount
    ensures Assignment(o, i) != [] && Clean(Assignment(o, i))
  {
    NameShape(i);
    RenderClean(o, i);
  }

  /** Comment lines, a line and at most a blank line, none of them with a line break. */
  lemma NotedLinesClean(cs: seq<string>, line: string, tail: seq<string>)
    requires forall k :: 0 <= k < |cs| ==> Clean(cs[k])
    requires Clean(line) && (tail == [] || tail == [""])
    ensures var ls := CommentLines(cs) + [line] + tail; forall k :: 0 <= k < |ls| ==> Clean(ls[k])
  {
    var comments := CommentLines(cs);
    assert forall k :: 0 <= k < |comments| ==> Clean(comments[k]) by {
      forall k | 0 <= k < |comments| ensures Clean(comments[k]) {
        assert Clean(cs[k]) && comments[k] == "# " + cs[k];
      }
    }
  }

  /** The lines of field `i` hold no line break, and only the last field's block ends in its assignment. */
  lemma BlockClean(o: Options, i: nat)
    requires NotesClean() && i < FieldCount
    ensures forall k :: 0 <= k < |Block(o, i)| ==> Clean(Block(o, i)[k])
    ensures Block(o, i) != [] && Block(o, i)[|Block(o, i)| - 1] == if i < FieldCount - 1 then "" else Assignment(o, i)
  {
    AssignmentClean(o, i);
    assert forall k :: 0 <= k < |Comments(i)| ==> Clean(Comments(i)[k]);
    NotedLinesClean(Comments(i), Assignment(o, i), if i < FieldCount - 1 then [""] else []);
  }

  lemma {:induction false} ConcatClean(blocks: seq<seq<string>>)
    requires forall j, k :: 0 <= j < |blocks| && 0 <= k < |blocks[j]| ==> Clean(blocks[j][k])
    ensures forall k :: 0 <= k < |Concat(blocks)| ==> Clean(Concat(blocks)[k])
    decreases |blocks|
  {
    if blocks != [] {
      var m := |blocks| - 1;
      ConcatClean(blocks[..m]);
      AppendClean(Concat(blocks[..m]), blocks[m]);
    }
  }

  /** Lines free of line breaks, followed by more such lines. */
  lemma AppendClean(a: seq<string>, b: seq<string>)
    requires forall k :: 0 <= k < |a| ==> Clean(a[k])
    requires forall k :: 0 <= k < |b| ==> Clean(b[k])
    ensures forall k :: 0 <= k < |a + b| ==> Clean((a + b)[k])
    ensures b != [] ==> (a + b)[|a + b| - 1] == b[|b| - 1]
  {
    assert forall k :: 0 <= k < |a + b| ==> (a + b)[k] == if k < |a| then a[k] else b[k - |a|];
  }

  lemma ConcatLast(blocks: seq<seq<string>>)
    requires blocks != [] && blocks[|blocks| - 1] != []
    ensures var c, b := Concat(blocks), blocks[|blocks| - 1]; c != [] && c[|c| - 1] == b[|b| - 1]
  {
  }

  /** Lines without line breaks, the last not empty, are what the scanner finds in their newline-joined text. */
  lemma LinesOfClean(ls: seq<string>)
    requires ls != [] && ls[|ls| - 1] != []
    requires forall k :: 0 <= k < |ls| ==> Clean(ls[k])
    ensures Lines(Join(ls, "\n")) == ls
  {
    assert "\n" == ['\n'];
    SplitJoin(ls, '\n');
    LinesOfParts(Join(ls, "\n"), ls);
  }

  lemma LinesOfParts(text: string, parts: seq<string>)
    requires Split(text, "\n") == parts && parts[|parts| - 1] != []
    requires forall k :: 0 <= k < |parts| ==> Clean(parts[k])
    ensures Lines(text) == parts
  {
    var r := Lines(text);
    assert |r| == |parts|;
    forall k | 0 <= k < |parts| ensures r[k] == parts[k] {
      assert r[k] == DropTrailingCR(parts[k]);
      assert parts[k] != [] ==> parts[k][|parts[k]| - 1] != '\r';
    }
  }

  lemma HeaderClean()
    ensures forall k :: 0 <= k < |Header| ==> Clean(Header[k])
  {
    assert Header[0] == "# vim:ft=config";
  }

  /** Every written line, for any settings, is free of line breaks, and the last one is not empty. */
  lemma DocLinesClean(o: Options)
    requires NotesClean()
    ensures var ls := DocLines(o); ls != [] && ls[|ls| - 1] != [] && forall k :: 0 <= k < |ls| ==> Clean(ls[k])
  {
    var blocks := FieldBlocks(o)[..FieldCount];
    forall j, k | 0 <= j < |blocks| && 0 <= k < |blocks[j]| ensures Clean(blocks[j][k]) {
      BlockClean(o, j);
    }
    ConcatClean(blocks);
    BlockClean(o, FieldCount - 1);
    AssignmentClean(o, FieldCount - 1);
    ConcatLast(blocks);
    var body := Blocks(o, FieldCount);
    var ls := Header + body;
    HeaderClean();
    AppendClean(Header, body);
  }

  /** The scanner splits the written text back into the written lines, for any settings. */
  lemma LinesOfText(o: Options)
    requires NotesClean()
    ensures Lines(Join(DocLines(o), "\n")) == DocLines(o)
  {
    DocLinesClean(o);
    LinesOfClean(DocLines(o));
  }

  /**
   * The file `options.String` writes loads back, from any settings whatever, to exactly the
   * settings it was written from: the header, comments and blank lines are skipped, the
   * dots removed from the extensions are put back, and each field is set by its own line.
   */
  lemma RoundTrip(start: Options, o: Options)
    requires NotesClean() && Storable(o)
    ensures Load(start, Lines(Join(DocLines(o), "\n"))) == (o, None)
  {
    LinesOfText(o);
    var body := Blocks(o, FieldCount);
    assert DocLines(o) == Header + body;
    LoadAppend(start, Header, body);
    HeaderSkipped(start);
    BlocksLoad(start, o);
    CopyAll(start, o);
  }

  /** The header, a modeline comment and a blank line, changes nothing. */
  lemma HeaderSkipped(x: Options)
    ensures Load(x, Header) == (x, None)
  {
    CommentLineSkipped(x, Header[0]);
    BlankLineSkipped(x, "");
    assert Header[1..] == [""];
  }
}
