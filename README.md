# spit render-cycle model

A Dafny model of the core of `spit`, a terminal image viewer. It steps through a catalogue of
images and delegates drawing to an external previewer command. It draws a templated status
line on the bottom row. Its settings come from a `key=value` configuration file.

The model covers:

- **Navigation** (`main.go`): `next` and `prev` with and without wrap-around. It also covers
  `startIndex`, and the key loop of `run` with its dirty-check on `(curr, last)`.
- **Display width** (`main.go`): `runeWidth` and `displayWidth`, the column count behind all
  status-line arithmetic.
- **Command templates** (`main.go`): the `generateCmd` closure, with its one-pass,
  non-rescanning `%c`/`%r`/`%f`/`%%` expansion per white-space field. It also covers how
  `execCmd` classifies a finished run.
- **The status line** (`main.go` `printStatus` up to printing):
  - placeholder substitution and the `0x0` → `N/A` fix-up;
  - left truncation, either inside the file name or across the whole line;
  - sharing the free columns across the `%=` gaps, the remainder going to the leftmost gaps.
- **Settings** (`opts.go`):
  - the `options` record and its defaults;
  - `loadConfig`'s line handling: trimming, skipping, cutting at `=`, unquoting, the key
    switch and its errors;
  - `options.String`, which writes the commented default file.

Modules:

- `Wrappers`: `Option` and `Result`.
- `Catalog`: the picture record.
- `Columns`: widths.
- `Strs`: the `strings` and `strconv.Itoa` functions the core calls.
- `Quoting`: `strconv.Quote`, `Unquote`, `ParseBool` and `FormatBool`.
- `Replacer`: the `%`-placeholder replacer.
- `Command`, `Status`, `Navigation` and `Settings`: the core itself.
- `SettingsLaws`: the loader and serialiser laws, the round trip among them.

Where the source changes state step by step, the model has a method with the source's loop. That method is proved equal to a specification function, and the properties are lemmas about that function. This holds for:

- `displayWidth`;
- `generateCmd`, which expands in place in an array;
- `printStatus` and its builder loop;
- the `run` loop;
- `loadConfig`;
- `options.String`.

`startIndex` is a method with the source's search loop. Its contract states the result
directly: the clamped index, 0 for an empty path, or the first matching picture. When no
picture matches, the contract states that none does.

Behaviour of the code that the model keeps as written:

- Truncation (main.go:416-421) replaces the first occurrence of the file name anywhere in
  the line with the mark and the name's tail. That occurrence need not be the name in its
  `%f` position. When the name does not occur, the line is left overrunning
  (`Status.AbsentNameNotCut`).
- The slice index of a truncation (main.go:420, 424) is computed from column counts but
  counts code points. Wide code points can therefore push it past the end, a run-time
  panic. The model makes that panic an outcome (`StatusLine.IndexOutOfRange`, `Truncate`
  returning `None`), not a precondition. `Status.TruncateInRange` states when it cannot
  happen. `Status.WideNameOverruns` exhibits a case where it does.
- Gaps are counted in the template (main.go:414) but the truncated line is split
  (main.go:435). A file name containing `%=` makes the two counts differ.
  `Status.StatusFillsTerminal` therefore assumes that the truncated line holds as many
  markers as the template.
- `execCmd` skips a blank command name (main.go:336-338), so a blank template is meant to
  run nothing. `generateCmd` returns early only for the empty template (main.go:270-272),
  and a template of white space alone panics (see Findings).

## Model

| member | source | states |
|---|---|---|
| Navigation.Next | main.go:351-356 | The result is a valid index. With wrap-around the last index is followed by 0; without it, by itself. Every other index is followed by the next one. |
| Navigation.Prev | main.go:358-363 | The result is a valid index. With wrap-around 0 is preceded by the last index; without it, by 0. Every other index is preceded by the one before it. |
| Navigation.WrapForward | main.go:353 | `(idx + 1) % n` is `idx + 1`, or 0 for the last index. |
| Navigation.NextNWraps | main.go:351-356 | With wrap-around, `k` forward steps land on `(idx + k) mod n`. |
| Navigation.NextCycle | main.go:351-356 | With wrap-around, `n` forward steps return to the starting image. |
| Navigation.NextNClamps | main.go:351-356 | Without wrap-around, `k` forward steps reach `min(idx + k, n - 1)`, so the last image stays put. |
| Navigation.PrevUndoesNext | main.go:351-363 | With wrap-around, `prev` undoes `next` and `next` undoes `prev`. |
| Navigation.StartIndex | main.go:487-508 | A start index of at least 1 is clamped to the catalogue, 1-based to 0-based. An empty start path gives 0. Otherwise the result is the first picture whose path matches the resolved path, or whose name matches its base name. When none matches, the result is the error `invalid start image`. Every success is a valid index. |
| Navigation.Dispatch | main.go:306-331 | The key switch stops exactly on `q`, keeps the current index valid, and leaves the state alone for any byte it does not act on. |
| Navigation.HandleKey | main.go:306-331 | The switch stops exactly where `Dispatch` does, which is on `q`. Otherwise its new `curr` and `last` are the key's transition. |
| Navigation.Run | main.go:255-331 | The loop renders exactly the sequence of indices that `Renders` defines. That sequence starts from `last = -1`, renders when dirty and stops at `q` or at the end of input. |
| Navigation.RendersInRange | main.go:255-331 | Every rendered index is a valid catalogue index. |
| Navigation.RendersBound | main.go:255-331 | Each byte read causes at most one render, after the first. |
| Navigation.FirstRenderIsStart | main.go:255-258 | The first frame drawn is the start image. |
| Navigation.IdleKeyRendersNothing | main.go:306-331 | After a render, an unrecognised byte draws nothing and changes nothing. |
| Navigation.QuitStops | main.go:307-308 | `q` ends the loop: nothing after it is drawn. |
| Navigation.HelpRedraws | main.go:317-330 | `?` redraws the current image once, then the loop carries on from the same state. |
| Navigation.MoveRendersIffMoved | main.go:309-316 | A navigation key renders exactly when it changes the index. |
| Columns.Utf8Len | main.go:370 | A code point's UTF-8 encoding takes 1 to 4 bytes: 4 exactly from U+10000, 1 exactly below U+0080. |
| Columns.RuneWidth | main.go:365-374 | A width is 0, 1 or 2. It is 0 exactly for non-spacing marks, and 2 exactly for other code points from U+10000. Below U+0300 every code point takes one column. |
| Columns.DisplayWidth | main.go:376-382 | The loop returns the sum of the code points' widths. |
| Columns.WidthAppend | main.go:376-382 | Width is additive over concatenation. |
| Columns.WidthAtMostTwice | main.go:376-382 | No string is wider than twice its length. |
| Columns.WidthNoWide | main.go:376-382 | Without wide code points a string is at most as wide as it is long. |
| Columns.WidthNarrow | main.go:376-382 | A string of one-column code points is exactly as wide as it is long. |
| Columns.LowCodePointsNarrow | main.go:365-374 | Every code point below U+0300 is one column wide. |
| Replacer.ExpandEscaped | main.go:273-278 | Expansion undoes doubling of `%`, because replaced text is not rescanned. |
| Replacer.ExpandPlain | main.go:273-278 | Text without `%` passes through expansion unchanged. |
| Command.NoRescan | main.go:273-278 | `%%c` expands to a literal `%c`. |
| Command.CommandLine | main.go:269-289 | A blank template gives `("", [])`. Otherwise the command is the first field, expanded. The arguments are the remaining fields, each expanded on its own, one per field. |
| Command.GenerateCmd | main.go:269-289 | The in-place array loop returns exactly `CommandLine`. |
| Command.CommandLineAsWritten | main.go:269-289 | As written, including the index of the first field when a blank template has none (`None`). |
| Command.BlankTemplatePanics | main.go:280-286 | A template of one space makes the source index past the end. |
| Command.CommandLineAgrees | main.go:269-289 | The source panics exactly on non-empty blank templates. Wherever it does not panic it agrees with `CommandLine`. |
| Command.PathIsOneArgument | main.go:277-283 | `prog %f` gives the path as a single argument, even when the path holds white space. |
| Command.FieldsBeforePath | main.go:280 | `w %f` splits into exactly the two fields `w` and `%f`. |
| Command.SizedPreviewer | main.go:273-288 | `prog opt%cx%r %f` gives `opt` followed by the columns, `x` and the rows less two, then the path. |
| Command.Exec | main.go:335-349 | A blank name is not run. A run fails exactly when it exits non-zero or writes to standard error. Only a clean run has its standard output forwarded. |
| Command.BlankTemplateRunsNothing | main.go:335-338 | A blank template never starts a process. |
| Status.FixUp | main.go:410-412 | For an image with both dimensions 0, no `0x0` or `0X0` is left in the line. Any other image's line is unchanged, and so is a line holding neither text. |
| Status.UnmeasuredShowsNA | main.go:400-412 | For an unmeasured image, `%wx%h` shows `N/A`. |
| Status.Status | main.go:384-446 | The line is hidden exactly when the template is empty. |
| Status.PrintStatus | main.go:384-446 | The method, which reassigns the line and appends to a builder, computes exactly `Status`. |
| Status.TruncateLine | main.go:415-426 | The truncation step computes exactly `Truncate`, including its out-of-range case. |
| Status.FillGaps | main.go:428-445 | The gap-filling step computes exactly `Justify`. |
| Status.LayoutLoop | main.go:435-445 | The builder loop lays out the pieces with each gap's spaces. |
| Status.GapTotalClosed | main.go:428-445 | `n` gaps receive `n` even shares and one extra space for each of the first `rem`. |
| Status.GapsShareFree | main.go:428-433 | Sharing `free` columns as `free / gaps` plus the remainder hands out exactly `free`. |
| Status.GapsBalanced | main.go:438-442 | A gap gets either the even share or one more, and never fewer spaces than a gap to its right. |
| Status.JoinWidth | main.go:414-415 | A line's width is its pieces' width plus two columns per `%=` marker. |
| Status.LayoutWidth | main.go:435-445 | The laid-out line's width is its pieces' width plus the spaces of its gaps. |
| Status.FillLaw | main.go:414-445 | When the line holds as many markers as gaps are counted, the filled line is exactly as wide as the terminal. The exception is content already wider, which keeps its own width. |
| Status.NoMarkerDrawnAsIs | main.go:428-445 | A line without `%=` is drawn as it is, whatever gap count it is laid out for. |
| Status.NoGapStatusAsIs | main.go:384-446 | A template without `%=` whose truncated line holds no marker is shown as the truncated line itself. |
| Status.StatusFillsTerminal | main.go:384-446 | When the truncated line keeps the template's marker count, the drawn status line fills the terminal exactly. The exception is content already wider. |
| Status.LineCutFits | main.go:422-425 | When the overrun is at least as wide as the name, cutting a one-column line from the left leaves it exactly `cols` columns wide plus the markers. |
| Status.NameCutFits | main.go:418-421 | When the overrun is narrower than the name and the name occurs in a one-column line, cutting inside the name leaves the line exactly `cols` columns wide plus the markers. |
| Status.ReplaceWidth | main.go:421 | Replacing the name in a one-column line changes its width by the difference. |
| Status.TruncateInRange | main.go:415-426 | With one-column text, a mark at most one column wide and a terminal at least one column wide, truncation never panics. |
| Status.AbsentNameNotCut | main.go:418-421 | When the overrun is narrower than the name but the name does not occur, the line is left overrunning. |
| Status.WideNameOverruns | main.go:415-420 | A name of three two-column code points on a two-column terminal panics. |
| Strs.TrimSpaceEmpty | opts.go:105-106 | A line trims to nothing exactly when it is white space alone. |
| Strs.TrimSpaceKeeps | opts.go:113-114 | A string with no white space at its ends is left alone by trimming. |
| Strs.TrimLeftSkips | opts.go:105 | Leading white space makes no difference to what trimming on the left leaves. |
| Strs.TrimRightSkips | opts.go:105 | Trailing white space makes no difference to what trimming on the right leaves. |
| Strs.TrimSpaceAround | opts.go:105 | Trimming strips any white space around a text that has none at its own ends. |
| Strs.FieldsEmpty | main.go:280 | A template has no fields exactly when it is white space alone. |
| Strs.FieldsCons | main.go:280 | A word followed by white space is the first field. |
| Strs.CutSpec | opts.go:109 | `Cut` splits at the first `=`, and finds none only when there is none. |
| Strs.SplitCount | main.go:414-435 | `Count` separators give `Count + 1` pieces. |
| Strs.JoinSplit | main.go:435 | Joining the pieces with the separator gives the original line. |
| Strs.JoinAppend | opts.go:54 | Joining two non-empty lists puts one separator between the two joins. |
| Strs.SplitJoin | opts.go:124-126 | Splitting on a one-character separator undoes a join whose pieces do not hold it. |
| Strs.ReplaceFirstSpec | main.go:421 | `strings.Replace(s, name, rep, 1)` replaces the leftmost occurrence at the returned index. With no occurrence the string is unchanged. |
| Strs.ReplaceAllAbsent | main.go:411 | `ReplaceAll` leaves a string without the pattern unchanged. |
| Strs.ReplaceAllAvoids | main.go:411 | When the replacement shares no code point with a text, `ReplaceAll` leaves none of that text behind. The text must be the pattern itself or absent from the input. |
| Strs.NatToStringDigits | main.go:403-407 | A natural number's decimal text is a non-empty string of digits that reads back as the number. |
| Strs.ItoaPlain | main.go:275-276 | A number's text is non-empty and holds neither white space nor `%`. |
| Quoting.QuoteVerbatim | opts.go:54-56 | Printable text without quotes or backslashes is quoted as it is. |
| Quoting.UnquoteQuote | opts.go:113-117 | `Unquote` undoes `Quote` for such text. |
| Quoting.QuoteClean | opts.go:54-56 | A quoted literal never holds a line feed or a carriage return, whatever the text, so a written value stays on its line. |
| Quoting.ParseFormatBool | opts.go:136-141 | `ParseBool` reads back what `FormatBool` writes. |
| Quoting.ParseBoolSome | opts.go:137-140 | `ParseBool` accepts exactly the six spellings of each value. |
| Settings.CopyField | opts.go:119-162 | Copying field `i` sets that field and leaves every other field as it was. |
| Settings.Format | opts.go:25-65 | The builder loop writes exactly the header and each field's block, joined by newlines. |
| Settings.WriteField | opts.go:34-61 | One field writes its comment lines, `name=value`, and a blank line unless it is the last. |
| Settings.WriteComments | opts.go:34-40 | Each comment line is written behind `# `, ended by a newline. |
| Settings.RenderField | opts.go:45-57 | Bools are written bare. Extensions are written undotted, comma-joined and quoted. Strings are quoted. |
| Settings.LoadConfig | opts.go:96-168 | The scanner loop computes exactly `Load`: every line applied in turn, stopping at the first error. |
| Settings.SetOption | opts.go:119-165 | The method's key switch computes exactly `Assign`. |
| Settings.NormalizeExtensions | opts.go:124-135 | The append loop computes exactly `Extensions`. |
| SettingsLaws.BlankLineSkipped | opts.go:105-108 | A blank line changes nothing. |
| SettingsLaws.CommentLineSkipped | opts.go:105-108 | A line starting with `#` or `;` after white space changes nothing. |
| SettingsLaws.NoEqualsSkipped | opts.go:109-112 | A line without `=` changes nothing. |
| SettingsLaws.ParseAssignment | opts.go:109-117 | `key=value` is read as that key and value, split at the first `=`. The value is replaced by its unquoted form when it is a literal. |
| SettingsLaws.ParseSpaced | opts.go:105-117 | White space around the line, around the key and around the value is trimmed: `  key  =  value  ` is read as the bare key and value, the value unquoted when it is a literal. |
| SettingsLaws.BadBoolRejected | opts.go:136-162 | A bool field given an unparsable value is an error naming the key and the value. |
| SettingsLaws.TruncateCharChecked | opts.go:152-156 | A truncation mark is accepted exactly when it is one column wide, and then it is stored. |
| SettingsLaws.UnknownKeyRejected | opts.go:163-164 | A key naming no field is an `unknown option` error. |
| SettingsLaws.OwnFieldOnly | opts.go:119-162 | A key changes no field but its own. |
| SettingsLaws.LastWriteWins | opts.go:119-162 | A later line for the same key overrides an earlier one. |
| SettingsLaws.LoadAppend | opts.go:104-166 | Loading two parts: the second starts where the first left off, unless the first failed. |
| SettingsLaws.LoadStopsAtError | opts.go:104-166 | The first bad line stops loading. Earlier lines keep their effect, and later lines are not read. |
| SettingsLaws.CommentsSkipped | opts.go:105-108 | Lines starting with `#` are read past without effect. |
| SettingsLaws.DottedAllDotted | opts.go:124-135 | Every stored extension starts with `.`. There is exactly one entry per item that is not white space alone, so a list of blank items stores nothing. |
| SettingsLaws.ExtensionsDotted | opts.go:124-135 | An extension value gives dotted entries, no more than its comma-separated items. |
| SettingsLaws.DottedAllUndotted | opts.go:124-135 | Re-adding dots undoes their removal for storable extensions. |
| SettingsLaws.ExtensionsRoundTrip | opts.go:124-135 | An extension list written undotted and comma-joined reads back as itself. |
| SettingsLaws.DefaultMarkAccepted | opts.go:152-156 | The default truncation mark passes the one-column check. |
| SettingsLaws.DefaultExtensionsRoundTrip | opts.go:124-135 | The default extension list reads back as itself. |
| SettingsLaws.CopyAll | opts.go:13-23 | Copying every field gives the source settings. |
| SettingsLaws.ValueReadsBack | opts.go:45-57 | A written value, unquoted as the loader does, gives back the text the key switch reads for that field. |
| SettingsLaws.PayloadAssigns | opts.go:119-162 | The key switch, given a field's name and written payload, sets exactly that field to its value. |
| SettingsLaws.AssignmentApplies | opts.go:104-165 | A field's `name=value` line, read back, sets that field to its value and nothing else. |
| SettingsLaws.BlockLoads | opts.go:34-61 | A field's written block sets that field and nothing else. |
| SettingsLaws.BlocksLoad | opts.go:31-62 | All the field blocks in order set every field. |
| SettingsLaws.ChainLoads | opts.go:104-166 | Blocks that each load cleanly load cleanly one after the other. |
| SettingsLaws.LinesOfText | opts.go:25-65 | For any settings, the scanner splits the written text back into the written lines. |
| SettingsLaws.DocLinesClean | opts.go:25-65 | For any settings, no written line holds a line break, and the last line is not empty. |
| SettingsLaws.HeaderSkipped | opts.go:27 | The modeline header changes nothing on loading. |
| SettingsLaws.RoundTrip | opts.go:25-168 | Loading the file `String` writes gives back, from any starting settings, exactly the settings it was written from, without error. |

## Left out

- Terminal I/O is out: raw mode, the alternate screen, cursor movement, `GetSize`, titles and the help text. `cols` and `rows` are parameters, and the key bytes are a parameter holding the bytes the key loop's `ReadByte` returns (main.go:302).
- The `?` help screen's own wait for ENTER is out: it reads a line through a new reader on standard input (main.go:324), which may take bytes the key loop would otherwise read. The model treats `?` as one key that forces a redraw.
- Process spawning in `execCmd` is out. `Command.Exec` classifies a given outcome: exit status, standard output and standard error.
- The file system is out: opening the configuration file, `getConfigDir`, globbing, decoding image headers. `filepath.IsAbs`, `Abs` and `Base` are uninterpreted functions.
- `bufio.Scanner`'s token-size limit and its read errors (`s.Err()`) are out. The file is given as text or as lines.
- `humanReadable` for sizes of 1024 bytes and more needs floating-point rounding. It is an uninterpreted function; sizes below 1024 are modelled.
- Unicode tables are not modelled:
  - the non-spacing-mark table behind `unicode.Is(unicode.Mn, ...)` and `unicode.IsPrint` above ASCII are uninterpreted;
  - nothing below U+0300 is taken to be a mark.
- Invalid UTF-8 is out. Strings are sequences of code points.
- `strconv.Unquote` of literals with backslash escapes, and of single-quoted rune literals, is uninterpreted. Raw and plain double-quoted literals are modelled.
- SettingsLaws.RoundTrip: proved only for settings whose strings are printable without quotes or backslashes and whose extensions are storable. These are the settings `strconv.Quote` writes as they are. The default `errorfmt` holds an escape character, so the default file is outside it.
- SettingsLaws.RoundTrip: also assumes that no line of the fixed comment texts holds a line break (`NotesClean`). That is not checked code point by code point.
- Status.NameCutFits: proved for lines of one-column code points only, because widths and slice indices differ otherwise.
- Status.LineCutFits: proved for lines of one-column code points only, for the same reason.
- Status.StatusFillsTerminal: assumes that the truncated line holds as many `%=` markers as the template.
- Status.Status: its own contract only says when the line is hidden. Its layout laws are the lemmas listed above.
- The `title` side effect of `run` (setting the terminal title) is out.
- `showError` on a failed cleaner or previewer run is out. A failed run still counts as a render, as in the source.
- `version`, `parseFlags` and the other flag handling are out.

## Findings

| source | as written | input that shows it | evidently intended | confidence | as-written member | corrected member |
|---|---|---|---|---|---|---|
| main.go:269-289 | `generateCmd` returns early only for `""`; a non-empty template of white space alone has no fields, and `parts[0]` indexes an empty slice | `cleaner=" "` (or `previewer="\t"`) in the configuration file | a blank template is treated as nothing to run, like the empty one | not executed | Command.CommandLineAsWritten, Command.BlankTemplatePanics | Command.CommandLine, Command.GenerateCmd |
