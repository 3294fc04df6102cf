/**
 * The placeholder expansion both templates of the viewer use: a `strings.NewReplacer`
 * built from two-character patterns `%` followed by a key.
 */
module Replacer {
  /**
   * One pass of a `strings.NewReplacer` whose patterns are `%` followed by a key of `table`:
   * the string is scanned from the left, each pattern is replaced by its entry and the scan
   * resumes after it, so replacement text is never scanned again; a `%` that starts no
   * pattern is copied.
   */
  function ExpandPercent(s: string, table: map<char, string>): string
    decreases |s|
  {
    if s == [] then []
    else if |s| >= 2 && s[0] == '%' && s[1] in table then table[s[1]] + ExpandPercent(s[2..], table)
    else [s[0]] + ExpandPercent(s[1..], table)
  }

  /** Doubles every `%`, the way a literal percent sign is written in a template. */
  function EscapePercent(s: string): string {
    if s == [] then []
    else if s[0] == '%' then "%%" + EscapePercent(s[1..])
    else [s[0]] + EscapePercent(s[1..])
  }

  /**
   * Expansion undoes escaping whenever `%%` stands for `%`: since replaced text is not
   * rescanned, an escaped `%` never starts a placeholder.
   */
  lemma {:induction false} ExpandEscaped(s: string, table: map<char, string>)
    requires '%' in table && table['%'] == "%"
    ensures ExpandPercent(EscapePercent(s), table) == s
    decreases |s|
  {
    if s != [] {
      ExpandEscaped(s[1..], table);
      var e := EscapePercent(s);
      if s[0] == '%' {
        assert e == "%%" + EscapePercent(s[1..]);
        assert e[2..] == EscapePercent(s[1..]);
      } else {
        assert e == [s[0]] + EscapePercent(s[1..]);
        assert e[1..] == EscapePercent(s[1..]);
      }
      assert s == [s[0]] + s[1..];
    }
  }

  /** Text without `%` passes through expansion untouched, whatever follows it. */
  lemma {:induction false} ExpandPlain(a: string, b: string, table: map<char, string>)
    requires '%' !in a
    ensures ExpandPercent(a + b, table) == a + ExpandPercent(b, table)
    decreases |a|
  {
    if a != [] {
      assert (a + b)[0] == a[0] && (a + b)[1..] == a[1..] + b;
      ExpandPlain(a[1..], b, table);
    } else {
      assert a + b == b;
    }
  }
}
