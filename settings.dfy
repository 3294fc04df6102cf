/**
 * The viewer's settings (opts.go): the `options` record and its defaults, the line-by-line
 * loader of the configuration file and the serialiser that writes the default file.
 * Go's reflection over the struct's fields is replaced by an explicit field table.
 */
module Settings {
  import opened Wrappers
  import opened Strs
  import opened Columns
  import opened Quoting

  /** The `options` struct, its fields in declaration order. */
  datatype Options = Options(
    cleaner: string,
    errorfmt: string,
    extensions: seq<string>,
    humanreadable: bool,
    previewer: string,
    statusline: string,
    title: bool,
    truncatechar: string,
    wrapscroll: bool)

  /** The settings before any file is read (opts.go `init`). */
  const Defaults: Options := Options(
    cleaner := "",
    errorfmt := "\U{1B}[7;31;47m",
    extensions := [".bmp", ".gif", ".jpg", ".jpeg", ".png", ".tif", ".tiff", ".webp"],
    humanreadable := false,
    previewer := "kitten icat --clear --stdin=no --transfer-mode=memory --place %cx%r@0x0 --scale-up=yes %f",
    statusline := "%f %= %wx%h  %s  %i/%t",
    title := false,
    truncatechar := "<",
    wrapscroll := true)

  const FieldCount: nat := 9

  /** The field names, which are also the keys of the configuration file. */
  const FieldNames: seq<string> := [
    "cleaner", "errorfmt", "extensions", "humanreadable", "previewer",
    "statusline", "title", "truncatechar", "wrapscroll"]

  /** The `comment` tag of field `i`, one string per line. */
  function Comments(i: nat): seq<string>
    requires i < FieldCount
  {
    match i
    case 0 => ["Command used to cleanup the preview.", "For more details about expansions, see 'previewer'."]
    case 1 => ["Format string for error messages"]
    case 2 => ["Enable 'spit' on the following image extensions"]
    case 3 => ["Use human readable sizes"]
    case 4 => ["Command used to preview images.", "Following expansions are available:", "%c terminal columns",
               "%r terminal rows", "%f file name (including path)"]
    case 5 => ["Set the look of the statusline.", "Following expansions are available:", "%f file name",
               "%h image height", "%w image width", "%i current index", "%t total amount of images",
               "%s image size", "%= alignment separator"]
    case 6 => ["Whether to set the terminal title to the current image"]
    case 7 => ["Character used for truncating the statusline when it gets too long"]
    case _ => ["Scroll past the last image back to the first one and vice versa"]
  }

  /** A field's value, by the kind reflection would report: string, bool or string slice. */
  datatype Value = Text(text: string) | Flag(flag: bool) | List(items: seq<string>)

  /** The value of field `i`. */
  function Get(o: Options, i: nat): Value
    requires i < FieldCount
  {
    match i
    case 0 => Text(o.cleaner)
    case 1 => Text(o.errorfmt)
    case 2 => List(o.extensions)
    case 3 => Flag(o.humanreadable)
    case 4 => Text(o.previewer)
    case 5 => Text(o.statusline)
    case 6 => Flag(o.title)
    case 7 => Text(o.truncatechar)
    case _ => Flag(o.wrapscroll)
  }

  /** `o` with field `i` taken from `src`. */
  function CopyField(o: Options, src: Options, i: nat): (r: Options)
    requires i < FieldCount
    ensures Get(r, i) == Get(src, i)
    ensures forall j :: 0 <= j < FieldCount && j != i ==> Get(r, j) == Get(o, j)
  {
    match i
    case 0 => o.(cleaner := src.cleaner)
    case 1 => o.(errorfmt := src.errorfmt)
    case 2 => o.(extensions := src.extensions)
    case 3 => o.(humanreadable := src.humanreadable)
    case 4 => o.(previewer := src.previewer)
    case 5 => o.(statusline := src.statusline)
    case 6 => o.(title := src.title)
    case 7 => o.(truncatechar := src.truncatechar)
    case _ => o.(wrapscroll := src.wrapscroll)
  }

  /** `strings.TrimPrefix`. */
  function TrimPrefix(s: string, p: string): string {
    if HasPrefix(s, p) then s[|p|..] else s
  }

  /** The extensions as the file writes them: without their leading dot. */
  function Undotted(exts: seq<string>): (r: seq<string>)
    ensures |r| == |exts|
  {
    seq(|exts|, j requires 0 <= j < |exts| => TrimPrefix(exts[j], "."))
  }

  /** The text after `=` in the file: bools bare, everything else as a Go string literal. */
  function Render(v: Value): string {
    match v
    case Flag(b) => FormatBool(b)
    case List(exts) => Quote(Join(Undotted(exts), ","))
    case Text(s) => Quote(s)
  }

  /** The `name=value` line of field `i`. */
  function Assignment(o: Options, i: nat): string
    requires i < FieldCount
  {
    FieldNames[i] + "=" + Render(Get(o, i))
  }

  /** The lines written for field `i`: its comment lines, its assignment, and a blank line unless it is the last. */
  function Block(o: Options, i: nat): seq<string>
    requires i < FieldCount
  {
    CommentLines(Comments(i)) + [Assignment(o, i)] + (if i < FieldCount - 1 then [""] else [])
  }

  /** The blocks of all the fields, in field order. */
  function FieldBlocks(o: Options): (r: seq<seq<string>>)
    ensures |r| == FieldCount && forall k :: 0 <= k < FieldCount ==> r[k] == Block(o, k)
  {
    seq(FieldCount, k requires 0 <= k < FieldCount => Block(o, k))
  }

  /** Blocks of lines, one after the other. */
  function Concat(blocks: seq<seq<string>>): seq<string> {
    if blocks == [] then [] else Concat(blocks[..|blocks| - 1]) + blocks[|blocks| - 1]
  }

  lemma ConcatPrefix(blocks: seq<seq<string>>, i: nat)
    requires i < |blocks|
    ensures Concat(blocks[..i + 1]) == Concat(blocks[..i]) + blocks[i]
  {
    assert blocks[..i + 1][..i] == blocks[..i];
  }

  /** The lines of the first `n` fields. */
  function Blocks(o: Options, n: nat): seq<string>
    requires n <= FieldCount
  {
    Concat(FieldBlocks(o)[..n])
  }

  const Header: seq<string> := ["# vim:ft=config", ""]

  /** The lines of `options.String`, which joins them with newlines. */
  function DocLines(o: Options): seq<string> {
    Header + Blocks(o, FieldCount)
  }

  /**
   * `options.String`: a builder receives the header, then for each field its comment
   * lines, `name=value`, and a blank line before the next field.
   */
  method Format(o: Options) returns (text: string)
    ensures text == Join(DocLines(o), "\n")
  {
    text := "# vim:ft=config\n\n";
    HeaderText(o);
    var i := 0;
    while i < FieldCount
      invariant 0 <= i <= FieldCount
      invariant text == Join(Header + Blocks(o, i), "\n") + Separator(i)
    {
      var chunk := WriteField(o, i);
      BlockText(o, i);
      ConcatAssoc(Join(Header + Blocks(o, i), "\n") + "\n", Join(Block(o, i), "\n"), Separator(i + 1));
      text := text + chunk;
      i := i + 1;
    }
  }

  /** What follows the lines of the first `i` fields: a newline unless all fields are written. */
  function Separator(i: nat): string {
    if i < FieldCount then "\n" else ""
  }

  lemma HeaderText(o: Options)
    ensures Join(Header + Blocks(o, 0), "\n") + "\n" == "# vim:ft=config\n\n"
  {
    assert Header + Blocks(o, 0) == Header;
    assert Header[1..] == [""];
  }

  lemma BlockText(o: Options, i: nat)
    requires i < FieldCount
    ensures Join(Header + Blocks(o, i + 1), "\n") == Join(Header + Blocks(o, i), "\n") + "\n" + Join(Block(o, i), "\n")
  {
    ConcatPrefix(FieldBlocks(o), i);
    JoinAppend(Header + Blocks(o, i), Block(o, i), "\n");
    ConcatAssoc(Header, Blocks(o, i), Block(o, i));
  }

  /** The text one field adds to the builder: its lines, each but the last ended by a newline. */
  method WriteField(o: Options, i: nat) returns (chunk: string)
    requires i < FieldCount
    ensures chunk == Join(Block(o, i), "\n") + Separator(i + 1)
  {
    ghost var lines := CommentLines(Comments(i));
    chunk := WriteComments(Comments(i));
    var value := RenderField(o, i);
    var assignment := FieldNames[i] + "=" + value;
    assert assignment == Assignment(o, i);
    if lines != [] {
      JoinSnoc(lines, assignment, "\n");
    }
    chunk := chunk + assignment;
    lines := lines + [assignment];
    if i < FieldCount - 1 {
      JoinSnoc(lines, "", "\n");
      chunk := chunk + "\n\n";
      lines := lines + [""];
    }
    assert chunk == Join(lines, "\n") + Separator(i + 1);
    assert lines == Block(o, i);
  }

  /** Comment text as written to the file: each line behind `# `. */
  function CommentLines(comments: seq<string>): (r: seq<string>)
    ensures |r| == |comments|
  {
    seq(|comments|, j requires 0 <= j < |comments| => "# " + comments[j])
  }

  /** The builder loop over the lines of a comment, each line followed by a newline. */
  method WriteComments(comments: seq<string>) returns (chunk: string)
    ensures comments == [] ==> chunk == ""
    ensures comments != [] ==> chunk == Join(CommentLines(comments), "\n") + "\n"
  {
    ghost var lines: seq<string> := [];
    chunk := "";
    var j := 0;
    while j < |comments|
      invariant 0 <= j <= |comments|
      invariant lines == CommentLines(comments[..j])
      invariant j == 0 ==> chunk == ""
      invariant j > 0 ==> chunk == Join(lines, "\n") + "\n"
    {
      if j > 0 {
        JoinSnoc(lines, "# " + comments[j], "\n");
      }
      assert CommentLines(comments[..j + 1]) == CommentLines(comments[..j]) + ["# " + comments[j]];
      chunk := chunk + "# " + comments[j] + "\n";
      lines := lines + ["# " + comments[j]];
      j := j + 1;
    }
    assert comments[..j] == comments;
  }

  /** The value part of field `i`'s line, the extension list built one undotted item at a time. */
  method RenderField(o: Options, i: nat) returns (value: string)
    requires i < FieldCount
    ensures value == Render(Get(o, i))
  {
    match Get(o, i)
    case Flag(b) =>
      value := FormatBool(b);
    case Text(s) =>
      value := Quote(s);
    case List(exts) =>
      var parts := new string[|exts|];
      var j := 0;
      while j < parts.Length
        invariant 0 <= j <= parts.Length
        invariant forall k :: 0 <= k < j ==> parts[k] == TrimPrefix(exts[k], ".")
      {
        parts[j] := TrimPrefix(exts[j], ".");
        j := j + 1;
      }
      assert parts[..] == Undotted(exts);
      value := Quote(Join(parts[..], ","));
  }

  /** Why loading stopped: a bad bool, a truncation mark not one column wide, or an unknown key. */
  datatype ConfigError = InvalidBool(key: string, value: string) | InvalidTruncateChar(value: string) | UnknownOption(key: string)

  /**
   * How `loadConfig` reads one line: after trimming, blank lines and lines starting with
   * `#` or `;` are skipped, and so are lines without `=`; otherwise the key and value are
   * the trimmed text before and after the first `=`, the value replaced by its unquoted
   * form when it is a valid Go string literal.
   */
  function ParseLine(raw: string): Option<(string, string)> {
    var line := TrimSpace(raw);
    if line == "" || HasPrefix(line, "#") || HasPrefix(line, ";") then None
    else match Cut(line, '=')
      case None => None
      case Some(p) =>
        var key, val := TrimSpace(p.0), TrimSpace(p.1);
        Some((key, match Unquote(val) case Some(u) => u case None => val))
  }

  /** One comma-separated item: dropped when blank, otherwise given a leading dot if it lacks one. */
  function Dotted(item: string): seq<string> {
    var e := TrimSpace(item);
    if e == "" then [] else [if HasPrefix(e, ".") then e else "." + e]
  }

  function DottedAll(items: seq<string>): seq<string> {
    if items == [] then [] else DottedAll(items[..|items| - 1]) + Dotted(items[|items| - 1])
  }

  /** The extension list a value stands for. */
  function Extensions(val: string): seq<string> {
    DottedAll(Split(val, ","))
  }

  /** `loadConfig`'s switch on the key. */
  function Assign(o: Options, key: string, val: string): Result<Options, ConfigError> {
    if key == "cleaner" then Ok(o.(cleaner := val))
    else if key == "errorfmt" then Ok(o.(errorfmt := val))
    else if key == "extensions" then Ok(o.(extensions := Extensions(val)))
    else if key == "humanreadable" then
      match ParseBool(val)
      case None => Err(InvalidBool(key, val))
      case Some(b) => Ok(o.(humanreadable := b))
    else if key == "previewer" then Ok(o.(previewer := val))
    else if key == "statusline" then Ok(o.(statusline := val))
    else if key == "title" then
      match ParseBool(val)
      case None => Err(InvalidBool(key, val))
      case Some(b) => Ok(o.(title := b))
    else if key == "truncatechar" then
      if Width(val) != 1 then Err(InvalidTruncateChar(val)) else Ok(o.(truncatechar := val))
    else if key == "wrapscroll" then
      match ParseBool(val)
      case None => Err(InvalidBool(key, val))
      case Some(b) => Ok(o.(wrapscroll := b))
    else Err(UnknownOption(key))
  }

  /** The effect of one line of the file. */
  function ApplyLine(o: Options, raw: string): Result<Options, ConfigError> {
    match ParseLine(raw)
    case None => Ok(o)
    case Some(kv) => Assign(o, kv.0, kv.1)
  }

  /**
   * The settings after reading `lines` starting from `o`, and the error that stopped the
   * reading, if any; the lines before the failing one keep their effect.
   */
  function Load(o: Options, lines: seq<string>): (Options, Option<ConfigError>)
    decreases |lines|
  {
    if lines == [] then (o, None)
    else match ApplyLine(o, lines[0])
      case Err(e) => (o, Some(e))
      case Ok(o') => Load(o', lines[1..])
  }

  /** `bufio.ScanLines`: lines end at `\n`, a final `\r` is dropped, and a last empty line is not one. */
  function Lines(text: string): seq<string> {
    var parts := Split(text, "\n");
    var kept := if parts[|parts| - 1] == [] then parts[..|parts| - 1] else parts;
    seq(|kept|, i requires 0 <= i < |kept| => DropTrailingCR(kept[i]))
  }

  function DropTrailingCR(s: string): string {
    if s != [] && s[|s| - 1] == '\r' then s[..|s| - 1] else s
  }

  /**
   * `loadConfig` over the lines of the file: each line updates the settings field by field,
   * and the first bad line stops the reading with its error.
   */
  method LoadConfig(start: Options, lines: seq<string>) returns (opts: Options, err: Option<ConfigError>)
    ensures (opts, err) == Load(start, lines)
  {
    opts := start;
    var i := 0;
    while i < |lines|
      invariant 0 <= i <= |lines|
      invariant Load(start, lines) == Load(opts, lines[i..])
    {
      assert lines[i..][1..] == lines[i + 1..];
      var line := TrimSpace(lines[i]);
      i := i + 1;
      if line == "" || HasPrefix(line, "#") || HasPrefix(line, ";") {
        continue;
      }
      var cut := Cut(line, '=');
      if cut.None? {
        continue;
      }
      var key, val := TrimSpace(cut.value.0), TrimSpace(cut.value.1);
      var unquoted := Unquote(val);
      if unquoted.Some? {
        val := unquoted.value;
      }
      var r := SetOption(opts, key, val);
      if r.Err? {
        return opts, Some(r.error);
      }
      opts := r.value;
    }
    return opts, None;
  }

  /** The switch on the key, assigning the one field it names. */
  method SetOption(o: Options, key: string, val: string) returns (r: Result<Options, ConfigError>)
    ensures r == Assign(o, key, val)
  {
    if key == "cleaner" {
      return Ok(o.(cleaner := val));
    } else if key == "errorfmt" {
      return Ok(o.(errorfmt := val));
    } else if key == "extensions" {
      var exts := NormalizeExtensions(val);
      return Ok(o.(extensions := exts));
    } else if key == "humanreadable" {
      var b := ParseBool(val);
      if b.None? {
        return Err(InvalidBool(key, val));
      }
      return Ok(o.(humanreadable := b.value));
    } else if key == "previewer" {
      return Ok(o.(previewer := val));
    } else if key == "statusline" {
      return Ok(o.(statusline := val));
    } else if key == "title" {
      var b := ParseBool(val);
      if b.None? {
        return Err(InvalidBool(key, val));
      }
      return Ok(o.(title := b.value));
    } else if key == "truncatechar" {
      var w := DisplayWidth(val);
      if w != 1 {
        return Err(InvalidTruncateChar(val));
      }
      return Ok(o.(truncatechar := val));
    } else if key == "wrapscroll" {
      var b := ParseBool(val);
      if b.None? {
        return Err(InvalidBool(key, val));
      }
      return Ok(o.(wrapscroll := b.value));
    }
    return Err(UnknownOption(key));
  }

  /** The `extensions` case: the trimmed, non-blank items are appended, each with a leading dot. */
  method NormalizeExtensions(val: string) returns (exts: seq<string>)
    ensures exts == Extensions(val)
  {
    var items := Split(val, ",");
    exts := [];
    var i := 0;
    while i < |items|
      invariant 0 <= i <= |items|
      invariant exts == DottedAll(items[..i])
    {
      assert items[..i + 1][..i] == items[..i];
      var e := TrimSpace(items[i]);
      if e != "" {
        if !HasPrefix(e, ".") {
          e := "." + e;
        }
        exts := exts + [e];
      }
      i := i + 1;
    }
    assert items[..i] == items;
  }
}
