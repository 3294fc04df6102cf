/**
 * Building the cleaner and previewer command lines (the `generateCmd` closure of main.go
 * `run`) and classifying what running one came to (`execCmd`).
 */
module Command {
  import opened Wrappers
  import opened Strs
  import opened Replacer

  /** `%%%c` under the command placeholders: `%%` yields `%`, which is not rescanned. */
  lemma NoRescan(cols: int, rows: int, path: string)
    ensures ExpandPercent("%%c", CommandTable(cols, rows, path)) == "%c"
  {
    var t := CommandTable(cols, rows, path);
    assert "%%c"[2..] == "c";
    assert ExpandPercent("c", t) == "c";
  }

  /**
   * The placeholders of a command template: `%c` the terminal columns, `%r` the rows less
   * two (the status line and a margin), `%f` the image's absolute path, `%%` a percent sign.
   */
  function CommandTable(cols: int, rows: int, path: string): map<char, string> {
    map['%' := "%", 'c' := Itoa(cols), 'r' := Itoa(rows - 2), 'f' := path]
  }

  function ExpandAll(fs: seq<string>, table: map<char, string>): (r: seq<string>)
    ensures |r| == |fs| && forall i :: 0 <= i < |fs| ==> r[i] == ExpandPercent(fs[i], table)
  {
    seq(|fs|, i requires 0 <= i < |fs| => ExpandPercent(fs[i], table))
  }

  /**
   * `generateCmd` as written: an empty template gives no command, otherwise the template
   * is cut into white-space separated fields, each field is expanded on its own, and the
   * first is the command and the rest its arguments. A template of white space alone has
   * no field, and the source then indexes the first of none: `None` marks that run-time
   * panic.
   */
  function CommandLineAsWritten(template: string, cols: int, rows: int, path: string): Option<(string, seq<string>)> {
    if template == "" then Some(("", []))
    else
      var parts := ExpandAll(Fields(template), CommandTable(cols, rows, path));
      if |parts| == 0 then None
      else if |parts| < 2 then Some((parts[0], []))
      else Some((parts[0], parts[1..]))
  }

  /** A cleaner or previewer template of a single space makes the source panic. */
  lemma BlankTemplatePanics(cols: int, rows: int, path: string)
    ensures CommandLineAsWritten(" ", cols, rows, path).None?
  {
    FieldsEmpty(" ");
  }

  /**
   * The command line a template stands for, with a template of white space alone treated
   * like the empty one, as nothing to run.
   */
  function CommandLine(template: string, cols: int, rows: int, path: string): (r: (string, seq<string>))
    ensures AllSpace(template) ==> r == ("", [])
    ensures !AllSpace(template) ==>
              (var fs := Fields(template);
               var table := CommandTable(cols, rows, path);
               && fs != []
               && r.0 == ExpandPercent(fs[0], table)
               && |r.1| == |fs| - 1
               && forall i :: 0 <= i < |r.1| ==> r.1[i] == ExpandPercent(fs[i + 1], table))
  {
    FieldsEmpty(template);
    var parts := ExpandAll(Fields(template), CommandTable(cols, rows, path));
    if |parts| == 0 then ("", []) else (parts[0], parts[1..])
  }

  /**
   * The corrected command line agrees with the source wherever the source does not panic,
   * and the source panics exactly on non-empty templates of white space alone.
   */
  lemma CommandLineAgrees(template: string, cols: int, rows: int, path: string)
    ensures CommandLineAsWritten(template, cols, rows, path).None? <==> template != "" && AllSpace(template)
    ensures CommandLineAsWritten(template, cols, rows, path).Some? ==>
              CommandLineAsWritten(template, cols, rows, path).value == CommandLine(template, cols, rows, path)
  {
    FieldsEmpty(template);
  }

  /**
   * The placeholders are expanded inside each field after the template is split, so the
   * image path is one argument even when it contains white space.
   */
  lemma PathIsOneArgument(prog: string, cols: int, rows: int, path: string)
    requires prog != [] && NoSpace(prog) && '%' !in prog
    ensures CommandLine(prog + " %f", cols, rows, path) == (prog, [path])
  {
    FieldsBeforePath(prog);
    var t := CommandTable(cols, rows, path);
    ExpandPlain(prog, [], t);
    assert prog + [] == prog;
    assert ExpandPercent("%f", t) == path by {
      assert "%f"[2..] == [];
    }
    assert ExpandAll([prog, "%f"], t) == [prog, path];
  }

  lemma FieldsBeforePath(w: string)
    requires w != [] && NoSpace(w)
    ensures Fields(w + " %f") == [w, "%f"]
  {
    FieldsSingle("%f");
    assert w + " %f" == w + [' '] + "%f";
    FieldsCons(w, ' ', "%f");
  }

  /**
   * A previewer given the terminal size and the image, as in `previewer --size=%cx%r %f`:
   * the size field becomes the columns, an `x` and the rows less two, and the path is the
   * last argument.
   */
  lemma SizedPreviewer(prog: string, opt: string, cols: int, rows: int, path: string)
    requires prog != [] && NoSpace(prog) && '%' !in prog
    requires NoSpace(opt) && '%' !in opt
    ensures CommandLine(prog + " " + opt + "%cx%r %f", cols, rows, path)
            == (prog, [opt + Itoa(cols) + "x" + Itoa(rows - 2), path])
  {
    var size := opt + "%cx%r";
    assert NoSpace(size) by {
      assert forall i :: 0 <= i < |size| ==> size[i] in opt || size[i] in "%cx%r";
    }
    FieldsBeforePath(size);
    FieldsCons(prog, ' ', size + " %f");
    assert prog + " " + opt + "%cx%r %f" == prog + [' '] + (size + " %f");
    var t := CommandTable(cols, rows, path);
    ExpandPlain(prog, [], t);
    assert prog + [] == prog;
    ExpandPlain(opt, "%cx%r", t);
    assert ExpandPercent("%cx%r", t) == Itoa(cols) + "x" + Itoa(rows - 2) by {
      assert "%cx%r"[2..] == "x%r";
      assert "x%r"[1..] == "%r";
      assert "%r"[2..] == [];
    }
    assert ExpandPercent("%f", t) == path by {
      assert "%f"[2..] == [];
    }
    assert ExpandPercent(size, t) == opt + Itoa(cols) + "x" + Itoa(rows - 2);
    var template := prog + " " + opt + "%cx%r %f";
    assert Fields(template) == [prog] + [size, "%f"];
    assert template[0] == prog[0];
    var r := CommandLine(template, cols, rows, path);
    assert r.1 == [ExpandPercent(size, t), ExpandPercent("%f", t)];
  }

  /**
   * `generateCmd`: splits the template into fields held in an array, expands each field in
   * place, and returns the first as the command and the rest as its arguments; a template
   * with no field yields no command.
   */
  method GenerateCmd(template: string, cols: int, rows: int, path: string) returns (name: string, args: seq<string>)
    ensures (name, args) == CommandLine(template, cols, rows, path)
  {
    if template == "" {
      return "", [];
    }
    var table := CommandTable(cols, rows, path);
    var fields := Fields(template);
    var parts := new string[|fields|](i requires 0 <= i < |fields| => fields[i]);
    var i := 0;
    while i < parts.Length
      invariant 0 <= i <= parts.Length
      invariant forall j :: 0 <= j < i ==> parts[j] == ExpandPercent(fields[j], table)
      invariant forall j :: i <= j < parts.Length ==> parts[j] == fields[j]
    {
      parts[i] := ExpandPercent(parts[i], table);
      i := i + 1;
    }
    assert parts[..] == ExpandAll(fields, table);
    if parts.Length == 0 {
      // white space alone: nothing to run (the source indexes parts[0] here and panics)
      return "", [];
    }
    if parts.Length < 2 {
      return parts[0], [];
    }
    return parts[0], parts[1..];
  }

  /** What a finished subprocess reported: whether it exited with status 0, and its two outputs. */
  datatype ProcessOutcome = ProcessOutcome(exitedZero: bool, stdout: string, stderr: string)

  /** `execCmd`'s verdict: nothing was run, the run succeeded and its output was forwarded, or it failed. */
  datatype ExecResult = Skipped | Forwarded(output: string) | Failed

  /**
   * `execCmd`: a blank command name is not run at all; otherwise the run fails when the
   * process exits non-zero or writes anything to standard error, and only a successful
   * run has its standard output forwarded.
   */
  function Exec(name: string, outcome: ProcessOutcome): (r: ExecResult)
    ensures r.Skipped? <==> AllSpace(name)
    ensures r.Forwarded? ==> r.output == outcome.stdout && outcome.exitedZero && outcome.stderr == []
    ensures r.Failed? <==> !AllSpace(name) && (!outcome.exitedZero || outcome.stderr != [])
  {
    TrimSpaceEmpty(name);
    if TrimSpace(name) == "" then Skipped
    else if !outcome.exitedZero || |outcome.stderr| > 0 then Failed
    else Forwarded(outcome.stdout)
  }

  /** A template of white space alone runs nothing, whatever the process would have done. */
  lemma BlankTemplateRunsNothing(template: string, cols: int, rows: int, path: string, outcome: ProcessOutcome)
    requires AllSpace(template)
    ensures Exec(CommandLine(template, cols, rows, path).0, outcome) == Skipped
  {
  }
}
