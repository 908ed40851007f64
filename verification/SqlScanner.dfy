/**
The text passes of go/gizmosql/sqlrouting.go: the five regular expressions as scanners over a
suffix of the text, comment stripping, the RETURNING search and the DDL/DML test.

Text is a sequence of Unicode scalar values, as a Go string holding valid UTF-8 is to `regexp` and
`strings`.
*/
module SqlScanner {
  import opened Wrappers

  // ----- Character classes -----

  /** The cutset that `strings.TrimLeft` is called with. */
  predicate IsTrimSpace(c: char) {
    var n := c as int;
    9 <= n <= 13 || n == 32
  }

  /** `unicode.IsSpace`, which is what `strings.Fields` splits on. */
  predicate IsSpace(c: char) {
    var n := c as int;
    || IsTrimSpace(c) || n == 0x85 || n == 0xA0 || n == 0x1680 || 0x2000 <= n <= 0x200A
    || n == 0x2028 || n == 0x2029 || n == 0x202F || n == 0x205F || n == 0x3000
  }

  /** The characters on which `\b` is defined: ASCII letters, digits and the underscore. */
  predicate IsWordChar(c: char) {
    'a' <= c <= 'z' || 'A' <= c <= 'Z' || '0' <= c <= '9' || c == '_'
  }

  function AsciiUpper(c: char): char {
    if 'a' <= c <= 'z' then (c as int - 32) as char else c
  }

  /** `unicode.ToUpper` as far as it can produce an ASCII letter: besides a-z, the dotless i
      (U+0131) and the long s (U+017F) do. */
  function Upper(c: char): char {
    if c as int == 0x131 then 'I' else if c as int == 0x17F then 'S' else AsciiUpper(c)
  }

  function UpperString(s: string): (r: string)
    ensures |r| == |s| && forall i :: 0 <= i < |s| ==> r[i] == Upper(s[i])
  {
    if s == "" then "" else [Upper(s[0])] + UpperString(s[1..])
  }

  // ----- The four deleting or blanking expressions -----

  datatype Pattern = BlockComment | LineComment | SingleQuoted | DoubleQuoted

  function Replacement(p: Pattern): string {
    match p
    case BlockComment => ""
    case LineComment => ""
    case SingleQuoted => "''"
    case DoubleQuoted => "\"\""
  }

  predicate Opens(s: string, a: char, b: char) {
    |s| >= 2 && s[0] == a && s[1] == b
  }

  /** The number of characters up to and including the first `*` `/` pair. */
  function CloseBlock(s: string): (r: Option<nat>)
    ensures r.Some? ==> 2 <= r.value <= |s|
  {
    if |s| < 2 then None
    else if Opens(s, '*', '/') then Some(2)
    else match CloseBlock(s[1..])
      case None => None
      case Some(k) => Some(k + 1)
  }

  function LineLength(s: string): (n: nat)
    ensures n <= |s|
  {
    if s == "" || s[0] == '\n' then 0 else 1 + LineLength(s[1..])
  }

  /** The number of characters that `(?:[^q]|qq)*q` takes: the loop prefers to go on over a doubled
      quote and falls back to closing on its first half when nothing further closes. */
  function CloseQuoted(q: char, s: string): (r: Option<nat>)
    ensures r.Some? ==> 1 <= r.value <= |s|
  {
    if s == "" then None
    else if s[0] != q then
      match CloseQuoted(q, s[1..])
      case None => None
      case Some(k) => Some(k + 1)
    else if Opens(s, q, q) then
      match CloseQuoted(q, s[2..])
      case None => Some(1)
      case Some(k) => Some(k + 2)
    else Some(1)
  }

  /** The length of the match that starts at the first character of `s`, if there is one. */
  function MatchLength(p: Pattern, s: string): (r: Option<nat>)
    ensures r.Some? ==> 2 <= r.value <= |s|
  {
    match p
    case BlockComment =>
      if !Opens(s, '/', '*') then None
      else (match CloseBlock(s[2..]) case None => None case Some(k) => Some(k + 2))
    case LineComment =>
      if Opens(s, '-', '-') then Some(2 + LineLength(s[2..])) else None
    case SingleQuoted => QuotedLength('\'', s)
    case DoubleQuoted => QuotedLength('\"', s)
  }

  function QuotedLength(q: char, s: string): (r: Option<nat>)
    ensures r.Some? ==> 2 <= r.value <= |s|
  {
    if s == "" || s[0] != q then None
    else match CloseQuoted(q, s[1..])
      case None => None
      case Some(k) => Some(k + 1)
  }

  /** `ReplaceAllString`: leftmost matches, each search resuming after the previous match. */
  function ReplaceAll(p: Pattern, s: string): string
    decreases |s|
  {
    if s == "" then ""
    else match MatchLength(p, s)
      case Some(n) => Replacement(p) + ReplaceAll(p, s[n..])
      case None => [s[0]] + ReplaceAll(p, s[1..])
  }

  // ----- What the expressions denote, independently of how they are searched -----

  /** `w` is in the language of `(?:[^q]|qq)*`. */
  predicate InQuotedBody(q: char, w: string) {
    || w == ""
    || (w[0] != q && InQuotedBody(q, w[1..]))
    || (Opens(w, q, q) && InQuotedBody(q, w[2..]))
  }

  /** `s` has a closing `q` at `m`, with a well-formed body before it. */
  predicate ClosesAt(q: char, s: string, m: int) {
    0 <= m < |s| && s[m] == q && InQuotedBody(q, s[..m])
  }

  /** The first `n` characters of `s` are in the language of the expression. */
  predicate Denotes(p: Pattern, s: string, n: int) {
    && 2 <= n <= |s|
    && match p
       case BlockComment => n >= 4 && Opens(s, '/', '*') && Opens(s[n - 2..], '*', '/')
       case LineComment => Opens(s, '-', '-') && forall i :: 2 <= i < n ==> s[i] != '\n'
       case SingleQuoted => s[0] == '\'' && ClosesAt('\'', s[1..], n - 2)
       case DoubleQuoted => s[0] == '\"' && ClosesAt('\"', s[1..], n - 2)
  }

  lemma {:induction false} CloseBlockFirst(s: string)
    ensures CloseBlock(s).None? ==> forall k :: 0 <= k <= |s| ==> !Opens(s[k..], '*', '/')
    ensures CloseBlock(s).Some? ==> Opens(s[CloseBlock(s).value - 2..], '*', '/')
    ensures CloseBlock(s).Some? ==> forall k :: 0 <= k < CloseBlock(s).value - 2 ==> !Opens(s[k..], '*', '/')
  {
    if |s| < 2 || Opens(s, '*', '/') {
    } else {
      CloseBlockFirst(s[1..]);
      assert forall k :: 1 <= k <= |s| ==> s[k..] == s[1..][k - 1..];
    }
  }

  lemma {:induction false} LineLengthLongest(s: string)
    ensures forall i :: 0 <= i < LineLength(s) ==> s[i] != '\n'
    ensures LineLength(s) < |s| ==> s[LineLength(s)] == '\n'
  {
    if s == "" || s[0] == '\n' {
    } else {
      LineLengthLongest(s[1..]);
    }
  }

  lemma {:induction false} CloseQuotedLongest(q: char, s: string)
    ensures CloseQuoted(q, s).Some? ==> ClosesAt(q, s, CloseQuoted(q, s).value - 1)
    ensures forall m :: ClosesAt(q, s, m) ==> CloseQuoted(q, s).Some? && m < CloseQuoted(q, s).value
    decreases |s|
  {
    if s == "" {
    } else {
      var step := if s[0] != q then 1 else 2;
      if s[0] != q || Opens(s, q, q) {
        CloseQuotedLongest(q, s[step..]);
        if CloseQuoted(q, s[step..]).Some? {
          var m := CloseQuoted(q, s[step..]).value - 1 + step;
          assert s[..m][step..] == s[step..][..m - step];
        }
      }
      forall m | ClosesAt(q, s, m) ensures CloseQuoted(q, s).Some? && m < CloseQuoted(q, s).value {
        if m > 0 {
          assert s[..m][0] == s[0];
          assert s[..m][step..] == s[step..][..m - step];
          assert ClosesAt(q, s[step..], m - step);
        }
      }
    }
  }

  /** Each scanner finds the match Go's leftmost-first search prefers at the first character: the
      shortest for the lazy block comment, the longest for the other three, and none only if the
      expression matches no prefix at all. */
  lemma MatchLengthIsPreferredMatch(p: Pattern, s: string)
    ensures MatchLength(p, s).None? <==> forall n :: !Denotes(p, s, n)
    ensures MatchLength(p, s).Some? ==> Denotes(p, s, MatchLength(p, s).value)
    ensures MatchLength(p, s).Some? ==>
              forall n :: Denotes(p, s, n) ==>
                if p.BlockComment? then MatchLength(p, s).value <= n else n <= MatchLength(p, s).value
  {
    match p
    case BlockComment =>
      if Opens(s, '/', '*') {
        CloseBlockFirst(s[2..]);
        assert forall k :: 2 <= k <= |s| ==> s[k..] == s[2..][k - 2..];
        assert MatchLength(p, s).Some? ==> Denotes(p, s, MatchLength(p, s).value);
      }
    case LineComment =>
      if Opens(s, '-', '-') {
        LineLengthLongest(s[2..]);
        assert Denotes(p, s, MatchLength(p, s).value);
      }
    case SingleQuoted => QuotedLengthLongest(p, '\'', s);
    case DoubleQuoted => QuotedLengthLongest(p, '\"', s);
  }

  lemma QuotedLengthLongest(p: Pattern, q: char, s: string)
    requires (p.SingleQuoted? && q == '\'') || (p.DoubleQuoted? && q == '\"')
    ensures MatchLength(p, s).Some? ==> Denotes(p, s, MatchLength(p, s).value)
    ensures forall n :: Denotes(p, s, n) ==> MatchLength(p, s).Some? && n <= MatchLength(p, s).value
  {
    if s != "" && s[0] == q {
      CloseQuotedLongest(q, s[1..]);
    }
  }

  // ----- stripSQLComments -----

  function TrimLeft(s: string): string {
    if s != "" && IsTrimSpace(s[0]) then TrimLeft(s[1..]) else s
  }

  function StripSqlComments(sql: string): string {
    TrimLeft(ReplaceAll(LineComment, ReplaceAll(BlockComment, sql)))
  }

  // ----- hasReturningClause -----

  const RETURNING := "RETURNING"

  /** `(?i)RETURNING` at the first character of `s`, with a word boundary after it. */
  predicate ReturningHere(s: string) {
    && |s| >= 9
    && (forall i :: 0 <= i < 9 ==> AsciiUpper(s[i]) == RETURNING[i])
    && (|s| > 9 ==> !IsWordChar(s[9]))
  }

  /** `(?i)\bRETURNING\b` somewhere in `s`; `inWord` says whether a word character precedes `s`. */
  predicate ReturningIn(inWord: bool, s: string)
    decreases |s|
  {
    s != "" && ((!inWord && ReturningHere(s)) || ReturningIn(IsWordChar(s[0]), s[1..]))
  }

  predicate HasReturningClause(sql: string) {
    ReturningIn(false, ReplaceAll(DoubleQuoted, ReplaceAll(SingleQuoted, sql)))
  }

  /** The search looks at every position and applies both word boundaries. */
  lemma {:induction false} ReturningInIsBoundarySearch(inWord: bool, s: string)
    ensures ReturningIn(inWord, s) <==>
            exists i :: 0 <= i < |s| && ReturningHere(s[i..]) && !(if i == 0 then inWord else IsWordChar(s[i - 1]))
    decreases |s|
  {
    if s == "" {
    } else {
      var t := s[1..];
      ReturningInIsBoundarySearch(IsWordChar(s[0]), t);
      assert forall i :: 0 <= i < |t| ==> t[i..] == s[i + 1..];
      if ReturningIn(inWord, s) {
        if !inWord && ReturningHere(s) {
          assert s[0..] == s;
        } else {
          var i :| 0 <= i < |t| && ReturningHere(t[i..]) &&
                   !(if i == 0 then IsWordChar(s[0]) else IsWordChar(t[i - 1]));
          assert s[i + 1..] == t[i..];
        }
      }
      if exists i :: 0 <= i < |s| && ReturningHere(s[i..]) && !(if i == 0 then inWord else IsWordChar(s[i - 1])) {
        var i :| 0 <= i < |s| && ReturningHere(s[i..]) && !(if i == 0 then inWord else IsWordChar(s[i - 1]));
        if i == 0 {
          assert s[0..] == s;
        } else {
          assert t[i - 1..] == s[i..];
        }
      }
    }
  }

  // ----- isDDLDML -----

  const KEYWORDS: set<string> := {
    "ALTER", "ATTACH", "BEGIN", "CALL", "CHECKPOINT", "COMMENT", "COMMIT", "COPY", "CREATE",
    "DELETE", "DETACH", "DROP", "EXPORT", "GRANT", "IMPORT", "INSERT", "INSTALL", "LOAD", "MERGE",
    "REVOKE", "ROLLBACK", "SET", "TRUNCATE", "UPDATE", "USE", "VACUUM"
  }

  function SkipSpace(s: string): (r: string)
    ensures |r| <= |s|
    ensures r != "" ==> !IsSpace(r[0])
  {
    if s != "" && IsSpace(s[0]) then SkipSpace(s[1..]) else s
  }

  function FieldLength(s: string): (n: nat)
    ensures n <= |s|
    ensures s != "" && !IsSpace(s[0]) ==> n > 0
  {
    if s == "" || IsSpace(s[0]) then 0 else 1 + FieldLength(s[1..])
  }

  /** `strings.Fields`. */
  function Fields(s: string): seq<string>
    decreases |s|
  {
    var t := SkipSpace(s);
    if t == "" then [] else [t[..FieldLength(t)]] + Fields(t[FieldLength(t)..])
  }

  /** `strings.TrimRight(s, "(;")`. */
  function TrimRight(s: string): string {
    if s != "" && s[|s| - 1] in "(;" then TrimRight(s[..|s| - 1]) else s
  }

  /** The classifier indexes the first field without checking that there is one. */
  datatype Verdict = Panics | Is(ddlDml: bool)

  predicate IsKeyword(word: string) {
    UpperString(word) in KEYWORDS
  }

  function IsDdlDml(sql: string): Verdict {
    var stripped := StripSqlComments(sql);
    if stripped == "" then Is(false)
    else
      var fields := Fields(stripped);
      if fields == [] then Panics
      else if !IsKeyword(TrimRight(fields[0])) then Is(false)
      else Is(!HasReturningClause(stripped))
  }

  // ----- When the classifier is total -----

  predicate AllSpace(s: string) {
    forall i :: 0 <= i < |s| ==> IsSpace(s[i])
  }

  lemma {:induction false} SkipSpaceEmpty(s: string)
    ensures SkipSpace(s) == "" <==> AllSpace(s)
  {
    if s == "" || !IsSpace(s[0]) {
    } else {
      SkipSpaceEmpty(s[1..]);
      assert AllSpace(s[1..]) ==> AllSpace(s) by {
        assert forall i :: 1 <= i < |s| ==> s[i] == s[1..][i - 1];
      }
    }
  }

  /** The classifier indexes out of range on exactly the texts that are, once comments and ASCII
      white space are gone, made of other Unicode spaces and not empty. */
  lemma ClassifierPanicsExactly(sql: string)
    ensures IsDdlDml(sql).Panics? <==> StripSqlComments(sql) != "" && AllSpace(StripSqlComments(sql))
  {
    SkipSpaceEmpty(StripSqlComments(sql));
  }

  /** So it is not total: a single no-break space is enough. */
  lemma ClassifierPanicsOnNoBreakSpace()
    ensures IsDdlDml("\U{00A0}").Panics?
  {
    var s := "\U{00A0}";
    assert ReplaceAll(BlockComment, s) == [s[0]] + ReplaceAll(BlockComment, s[1..]);
    assert ReplaceAll(LineComment, s) == [s[0]] + ReplaceAll(LineComment, s[1..]);
    assert StripSqlComments(s) == s;
    ClassifierPanicsExactly(s);
  }
}
