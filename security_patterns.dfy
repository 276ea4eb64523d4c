/** The heuristic detectors of `SecurityChecker`: each one is a regular-expression search,
    written here as "some position of the text starts a match" with the regular expressions
    spelled out position by position. */
module SecurityPatterns {
  import opened Strings

  // ---------------------------------------------------------------- scanning helpers

  /** The end of the run of `\s` characters that starts at `i` (what a greedy `\s*` consumes). */
  function SkipSpaces(s: string, i: nat): (j: nat)
    requires i <= |s|
    ensures i <= j <= |s|
    ensures forall k :: i <= k < j ==> IsSpace(s[k])
    ensures j == |s| || !IsSpace(s[j])
    decreases |s| - i
  {
    if i < |s| && IsSpace(s[i]) then SkipSpaces(s, i + 1) else i
  }

  /** The end of the run of `\w` characters that starts at `i` (what a greedy `\w+` consumes). */
  function WordRunEnd(s: string, i: nat): (j: nat)
    requires i <= |s|
    ensures i <= j <= |s|
    ensures forall k :: i <= k < j ==> IsWordChar(s[k])
    ensures j == |s| || !IsWordChar(s[j])
    decreases |s| - i
  {
    if i < |s| && IsWordChar(s[i]) then WordRunEnd(s, i + 1) else i
  }

  /** `\b` at position `i`: exactly one of the characters around it is a word character. */
  predicate WordBoundary(s: string, i: int)
    requires 0 <= i <= |s|
  {
    (i > 0 && IsWordChar(s[i - 1])) != (i < |s| && IsWordChar(s[i]))
  }

  /** One of `words`, delimited by `\b` on both sides, starts at `i`. */
  predicate DelimitedWordAt(s: string, i: int, words: seq<string>)
    requires 0 <= i <= |s|
  {
    WordBoundary(s, i) &&
    exists k :: 0 <= k < |words| && OccursAt(s, i, words[k]) && WordBoundary(s, i + |words[k]|)
  }

  /** One of `words` starts at `i` (no boundary required after it). */
  predicate AnyWordAt(s: string, i: int, words: seq<string>) {
    exists k :: 0 <= k < |words| && OccursAt(s, i, words[k])
  }

  // ---------------------------------------------------------------- XSS

  const XssLiterals: seq<string> := ["<script", "javascript:", "vbscript:", "expression(", "eval(", "exec("]

  /** `on\w+\s*=` at `i`. The greedy `\w+` and `\s*` need no backtracking: `=` is neither. */
  predicate EventHandlerAt(s: string, i: int)
    requires 0 <= i <= |s|
  {
    OccursAt(s, i, "on") &&
    var e := WordRunEnd(s, i + 2);
    e > i + 2 && var f := SkipSpaces(s, e); f < |s| && s[f] == '='
  }

  /** `check_xss_patterns`: the lower-cased text contains one of the XSS patterns. */
  predicate CheckXssPatterns(content: string) {
    content != [] &&
    var c := Lower(content);
    exists i :: 0 <= i <= |c| && (AnyWordAt(c, i, XssLiterals) || EventHandlerAt(c, i))
  }

  // ---------------------------------------------------------------- SQL injection

  /** The keyword sets of the SQL patterns, parameterised by their spelling. */
  datatype SqlKeywords = SqlKeywords(statements: seq<string>, union: string, select: string, logic: seq<string>)

  /** The keywords exactly as the source writes them: upper case. */
  const UpperSqlKeywords := SqlKeywords(
    ["SELECT", "INSERT", "UPDATE", "DELETE", "DROP", "CREATE", "ALTER", "EXEC"], "UNION", "SELECT", ["OR", "AND"])

  /** The same keywords in lower case, as they can appear in lower-cased text. */
  const LowerSqlKeywords := SqlKeywords(
    ["select", "insert", "update", "delete", "drop", "create", "alter", "exec"], "union", "select", ["or", "and"])

  /** `[\d\s'"=]` */
  predicate AfterLogicChar(c: char) {
    IsDigit(c) || IsSpace(c) || c == '\'' || c == '"' || c == '='
  }

  /** Pattern 1: `\b(SELECT|...|EXEC|UNION|UNION\s+SELECT)\b`. */
  predicate SqlStatementAt(s: string, i: int, kw: SqlKeywords)
    requires 0 <= i <= |s|
  {
    || DelimitedWordAt(s, i, kw.statements + [kw.union])
    || (WordBoundary(s, i) && OccursAt(s, i, kw.union) &&
        var j := SkipSpaces(s, i + |kw.union|);
        j > i + |kw.union| && OccursAt(s, j, kw.select) && WordBoundary(s, j + |kw.select|))
  }

  /** Pattern 2: `\b(OR|AND)\s+[\d\s'"=]`. Because the class after `\s+` contains `\s`, the
      pattern matches exactly when the keyword is followed by one whitespace character and
      then one character of the class. */
  predicate SqlLogicAt(s: string, i: int, kw: SqlKeywords)
    requires 0 <= i <= |s|
  {
    WordBoundary(s, i) &&
    exists k :: 0 <= k < |kw.logic| && OccursAt(s, i, kw.logic[k]) &&
      var e := i + |kw.logic[k]|;
      e + 1 < |s| && IsSpace(s[e]) && AfterLogicChar(s[e + 1])
  }

  /** Pattern 3: `'\s*(OR|AND)\s*'\d`. */
  predicate SqlQuotedLogicAt(s: string, i: int, kw: SqlKeywords)
    requires 0 <= i <= |s|
  {
    i < |s| && s[i] == '\'' &&
    var j := SkipSpaces(s, i + 1);
    exists k :: 0 <= k < |kw.logic| && OccursAt(s, j, kw.logic[k]) &&
      var m := SkipSpaces(s, j + |kw.logic[k]|);
      m + 1 < |s| && s[m] == '\'' && IsDigit(s[m + 1])
  }

  /** Pattern 4: `'\s*=\s*'`. It mentions no keyword. */
  predicate QuoteEqualsQuoteAt(s: string, i: int)
    requires 0 <= i <= |s|
  {
    i < |s| && s[i] == '\'' &&
    var j := SkipSpaces(s, i + 1);
    j < |s| && s[j] == '=' && var m := SkipSpaces(s, j + 1); m < |s| && s[m] == '\''
  }

  /** Patterns 5 and 6: `;\s*(SELECT|...)` and `'\s*(SELECT|...)`. */
  predicate SqlAfterPunctuationAt(s: string, i: int, kw: SqlKeywords)
    requires 0 <= i <= |s|
  {
    i < |s| && (s[i] == ';' || s[i] == '\'') && AnyWordAt(s, SkipSpaces(s, i + 1), kw.statements)
  }

  predicate SqlPatternAt(s: string, i: int, kw: SqlKeywords)
    requires 0 <= i <= |s|
  {
    || SqlStatementAt(s, i, kw) || SqlLogicAt(s, i, kw) || SqlQuotedLogicAt(s, i, kw)
    || QuoteEqualsQuoteAt(s, i) || SqlAfterPunctuationAt(s, i, kw)
  }

  /** `check_sql_injection_patterns` as written: the upper-case patterns searched, without
      ignoring case, in the lower-cased text. */
  predicate CheckSqlInjectionPatternsAsWritten(content: string) {
    content != [] &&
    var c := Lower(content);
    exists i :: 0 <= i <= |c| && SqlPatternAt(c, i, UpperSqlKeywords)
  }

  /** `check_sql_injection_patterns` with the patterns matched against the lower-cased text in
      lower case, which is what searching lower-cased text for keywords calls for. */
  predicate CheckSqlInjectionPatterns(content: string) {
    content != [] &&
    var c := Lower(content);
    exists i :: 0 <= i <= |c| && SqlPatternAt(c, i, LowerSqlKeywords)
  }

  /** A text without upper-case letters contains no upper-case keyword. */
  lemma NoUpperKeywordIn(s: string, i: int, words: seq<string>)
    requires forall k :: 0 <= k < |s| ==> !IsUpperLetter(s[k])
    requires forall k :: 0 <= k < |words| ==> |words[k]| > 0 && IsUpperLetter(words[k][0])
    ensures !AnyWordAt(s, i, words)
  {
  }

  /** As written, the only SQL pattern that can ever match is `'\s*=\s*'`. */
  lemma {:induction false} SqlAsWrittenOnlyQuoteEquals(content: string)
    ensures CheckSqlInjectionPatternsAsWritten(content) <==>
            content != [] && exists i :: 0 <= i <= |content| && QuoteEqualsQuoteAt(Lower(content), i)
  {
    var c := Lower(content);
    var kw := UpperSqlKeywords;
    forall i | 0 <= i <= |c|
      ensures SqlPatternAt(c, i, kw) <==> QuoteEqualsQuoteAt(c, i)
    {
      NoUpperKeywordIn(c, i, kw.statements + [kw.union]);
      NoUpperKeywordIn(c, i, [kw.union]);
      NoUpperKeywordIn(c, i, kw.logic);
      NoUpperKeywordIn(c, i, kw.statements);
      assert !OccursAt(c, i, kw.union) by {
        assert [kw.union][0] == kw.union;
        assert OccursAt(c, i, kw.union) ==> AnyWordAt(c, i, [kw.union]);
      }
      assert !SqlLogicAt(c, i, kw) by {
        assert forall k :: 0 <= k < |kw.logic| && OccursAt(c, i, kw.logic[k]) ==> AnyWordAt(c, i, kw.logic);
      }
      if i < |c| {
        var j := SkipSpaces(c, i + 1);
        NoUpperKeywordIn(c, j, kw.logic);
        assert forall k :: 0 <= k < |kw.logic| && OccursAt(c, j, kw.logic[k]) ==> AnyWordAt(c, j, kw.logic);
        NoUpperKeywordIn(c, j, kw.statements);
      }
      assert DelimitedWordAt(c, i, kw.statements + [kw.union]) ==> AnyWordAt(c, i, kw.statements + [kw.union]);
    }
  }

  /** The discrepancy: a classic tautology injection from the security tests is not flagged. */
  lemma SqlAsWrittenMissesTautology()
    ensures !CheckSqlInjectionPatternsAsWritten("1 OR 1=1")
  {
    SqlAsWrittenOnlyQuoteEquals("1 OR 1=1");
    var c := Lower("1 OR 1=1");
    forall i | 0 <= i <= |c| ensures !QuoteEqualsQuoteAt(c, i) {
      if i < |c| { assert c[i] != '\''; }
    }
  }

  /** The lower-case patterns flag every text that the as-written patterns flag. */
  lemma SqlCorrectedExtendsAsWritten(content: string)
    ensures CheckSqlInjectionPatternsAsWritten(content) ==> CheckSqlInjectionPatterns(content)
  {
    if CheckSqlInjectionPatternsAsWritten(content) {
      SqlAsWrittenOnlyQuoteEquals(content);
      var c := Lower(content);
      var i :| 0 <= i <= |c| && QuoteEqualsQuoteAt(c, i);
      assert SqlPatternAt(c, i, LowerSqlKeywords);
    }
  }

  /** The lower-case patterns flag three of the injection examples of the security tests. */
  lemma SqlCorrectedFlagsTautology()
    ensures CheckSqlInjectionPatterns("1 OR 1=1")
  {
    var kw := LowerSqlKeywords;
    var c := Lower("1 OR 1=1");
    assert c == "1 or 1=1";
    assert OccursAt(c, 2, kw.logic[0]);
    assert SqlLogicAt(c, 2, kw);
    assert SqlPatternAt(c, 2, kw);
  }

  lemma SqlCorrectedFlagsDrop()
    ensures CheckSqlInjectionPatterns("'; DROP TABLE users; --")
  {
    var kw := LowerSqlKeywords;
    var c := Lower("'; DROP TABLE users; --");
    assert c[..7] == "'; drop";
    assert SkipSpaces(c, 2) == 3;
    assert OccursAt(c, 3, kw.statements[4]);
    assert SqlAfterPunctuationAt(c, 1, kw);
    assert SqlPatternAt(c, 1, kw);
  }

  lemma SqlCorrectedFlagsUnion()
    ensures CheckSqlInjectionPatterns("' UNION SELECT * FROM users --")
  {
    var kw := LowerSqlKeywords;
    var s := "' UNION SELECT * FROM users --";
    assert s[1] == ' '; assert s[2] == 'U'; assert s[3] == 'N'; assert s[4] == 'I';
    assert s[5] == 'O'; assert s[6] == 'N'; assert s[7] == ' ';
    var c := Lower(s);
    assert c[1] == ' '; assert c[2] == 'u'; assert c[3] == 'n'; assert c[4] == 'i';
    assert c[5] == 'o'; assert c[6] == 'n'; assert c[7] == ' ';
    assert c[2..7] == kw.union;
    assert OccursAt(c, 2, kw.union);
    assert WordBoundary(c, 2) && WordBoundary(c, 7);
    assert DelimitedWordAt(c, 2, kw.statements + [kw.union]) by {
      assert (kw.statements + [kw.union])[8] == kw.union;
    }
    assert SqlStatementAt(c, 2, kw);
    assert SqlPatternAt(c, 2, kw);
  }

  // ---------------------------------------------------------------- command injection

  const ShellWords: seq<string> := [
    "echo", "cat", "ls", "pwd", "whoami", "rm", "mv", "cp", "chmod", "chown", "ps", "kill", "grep",
    "find", "touch", "mkdir", "rmdir", "cd", "env", "export", "unset", "source", "eval", "exec", "command"]

  /** One of `[;&|`]`, `\$\(`, `%\w+%`, `` `\w+` `` at `i`. */
  predicate ShellMetaAt(s: string, i: int)
    requires 0 <= i <= |s|
  {
    || (i < |s| && (s[i] == ';' || s[i] == '&' || s[i] == '|' || s[i] == '`'))
    || OccursAt(s, i, "$(")
    || (i < |s| && (s[i] == '%' || s[i] == '`') &&
        var e := WordRunEnd(s, i + 1); e > i + 1 && e < |s| && s[e] == s[i])
  }

  /** `check_command_injection_patterns`: a shell metacharacter pattern occurs in the text and a
      shell command name occurs, as a whole word, in the lower-cased text. */
  predicate CheckCommandInjectionPatterns(content: string) {
    content != [] &&
    (exists i :: 0 <= i <= |content| && ShellMetaAt(content, i)) &&
    var c := Lower(content);
    exists j :: 0 <= j <= |c| && DelimitedWordAt(c, j, ShellWords)
  }

  /** The XSS check ignores case: upper-casing the text changes nothing. */
  lemma XssIgnoresCase(content: string)
    ensures CheckXssPatterns(Upper(content)) == CheckXssPatterns(content)
  {
    LowerOfUpper(content);
  }

  /** The characters a metacharacter pattern starts with. */
  predicate IsShellMetaStart(c: char) {
    c == ';' || c == '&' || c == '|' || c == '`' || c == '$' || c == '%'
  }

  /** Without any of the characters ``;&|`$%`` no metacharacter pattern can start, so the
      text is never flagged for command injection, whatever words it holds. */
  lemma NoShellMetaNotFlagged(content: string)
    requires forall i :: 0 <= i < |content| ==> !IsShellMetaStart(content[i])
    ensures !CheckCommandInjectionPatterns(content)
  {
    forall i | 0 <= i <= |content| ensures !ShellMetaAt(content, i) {
      NoShellMetaHere(content, i);
    }
    assert !exists i :: 0 <= i <= |content| && ShellMetaAt(content, i);
  }

  lemma NoShellMetaHere(content: string, i: int)
    requires 0 <= i <= |content|
    requires i < |content| ==> !IsShellMetaStart(content[i])
    ensures !ShellMetaAt(content, i)
  {
  }

  /** Detection examples of the security tests. */
  lemma XssScriptExample()
    ensures CheckXssPatterns("<script>alert('XSS')</script>")
  {
    var c := Lower("<script>alert('XSS')</script>");
    assert c[..7] == "<script";
    assert AnyWordAt(c, 0, XssLiterals) by { assert OccursAt(c, 0, XssLiterals[0]); }
  }

  lemma XssJavascriptExample()
    ensures CheckXssPatterns("javascript:alert('XSS')")
  {
    var c := Lower("javascript:alert('XSS')");
    assert c[..11] == "javascript:";
    assert AnyWordAt(c, 0, XssLiterals) by { assert OccursAt(c, 0, XssLiterals[1]); }
  }

  lemma XssHandlerExample()
    ensures CheckXssPatterns("<svg onload=alert('XSS')>")
  {
    var s := "<svg onload=alert('XSS')>";
    assert s[5] == 'o'; assert s[6] == 'n'; assert s[7] == 'l'; assert s[8] == 'o';
    assert s[9] == 'a'; assert s[10] == 'd'; assert s[11] == '=';
    var c := Lower(s);
    assert c[5] == 'o'; assert c[6] == 'n'; assert c[7] == 'l'; assert c[8] == 'o';
    assert c[9] == 'a'; assert c[10] == 'd'; assert c[11] == '=';
    assert c[5..7] == "on";
    assert OccursAt(c, 5, "on");
    assert WordRunEnd(c, 7) == 11;
    assert SkipSpaces(c, 11) == 11;
    assert EventHandlerAt(c, 5);
  }

  lemma CommandInjectionExample()
    ensures CheckCommandInjectionPatterns("; rm -rf /")
  {
    var c := "; rm -rf /";
    assert ShellMetaAt(c, 0);
    var lc := Lower(c);
    assert lc == c;
    assert OccursAt(lc, 2, ShellWords[5]);
    assert DelimitedWordAt(lc, 2, ShellWords);
  }
}
