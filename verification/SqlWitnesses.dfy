/**
The remaining hypotheses of the classifier refinement, each with texts that break it alone: comment
openers inside literals, identifiers and line comments hide a RETURNING, and two letters outside ASCII
make a keyword of what is none.
*/
module SqlWitnesses {
  import opened Wrappers
  import opened SqlScanner
  import opened SqlLexer
  import opened SqlPasses
  import opened SqlRefinement
  import opened SqlLimits

  // ----- Texts without the letter R -----

  predicate Silent(s: string) {
    forall i :: 0 <= i < |s| ==> AsciiUpper(s[i]) != 'R'
  }

  lemma {:induction false} ReplaceAllKeepsSilence(p: Pattern, s: string)
    requires Silent(s)
    ensures Silent(ReplaceAll(p, s))
    decreases |s|
  {
    if s == "" {
    } else {
      match MatchLength(p, s)
      case Some(n) => ReplaceAllKeepsSilence(p, s[n..]);
      case None => ReplaceAllKeepsSilence(p, s[1..]);
    }
  }

  lemma {:induction false} SilenceHasNoReturning(inWord: bool, s: string)
    requires Silent(s)
    ensures !ReturningIn(inWord, s)
    decreases |s|
  {
    if s == "" {
    } else {
      assert AsciiUpper(s[0]) != RETURNING[0];
      SilenceHasNoReturning(IsWordChar(s[0]), s[1..]);
    }
  }

  lemma {:induction false} TrimLeftKeepsSilence(s: string)
    requires Silent(s)
    ensures Silent(TrimLeft(s))
  {
    if s == "" || !IsTrimSpace(s[0]) {
    } else {
      TrimLeftKeepsSilence(s[1..]);
    }
  }

  /** Once the block comments are gone, no RETURNING appears where the letter does not. */
  lemma SilentOnceUnblocked(sql: string)
    requires Silent(ReplaceAll(BlockComment, sql))
    ensures !HasReturningClause(StripSqlComments(sql))
  {
    var s := ReplaceAll(BlockComment, sql);
    ReplaceAllKeepsSilence(LineComment, s);
    TrimLeftKeepsSilence(ReplaceAll(LineComment, s));
    SilentOnceStripped(StripSqlComments(sql));
  }

  lemma SilentOnceStripped(s: string)
    requires Silent(s)
    ensures !HasReturningClause(s)
  {
    ReplaceAllKeepsSilence(SingleQuoted, s);
    ReplaceAllKeepsSilence(DoubleQuoted, ReplaceAll(SingleQuoted, s));
    SilenceHasNoReturning(false, ReplaceAll(DoubleQuoted, ReplaceAll(SingleQuoted, s)));
  }

  // ----- Block comments that are none -----

  lemma {:induction false} StarlessCloses(mid: string)
    requires '*' !in mid
    ensures CloseBlock(mid + "*/") == Some(|mid| + 2)
  {
    if mid == "" {
      assert mid + "*/" == "*/";
    } else {
      assert (mid + "*/")[1..] == mid[1..] + "*/";
      StarlessCloses(mid[1..]);
    }
  }

  lemma NothingToBlock(s: string, rest: string)
    requires '/' !in s
    ensures ReplaceAll(BlockComment, s + rest) == s + ReplaceAll(BlockComment, rest)
  {
    forall i | 0 <= i < |s| ensures !MayOpen(BlockComment, s[i..] + rest) {
      assert (s[i..] + rest)[0] == s[i];
    }
    CopiesText(BlockComment, s, rest);
  }

  /** What stands between an opener and the next closing pair goes, whatever the opener stands in. */
  lemma StretchIsDeleted(a: string, mid: string, b: string)
    requires '/' !in a && '*' !in mid && '/' !in b
    ensures ReplaceAll(BlockComment, a + (("/*" + (mid + "*/")) + b)) == a + b
  {
    var closing := mid + "*/";
    var t := "/*" + closing;
    StarlessCloses(mid);
    MatchesBlock(closing, b);
    ReplacesMatch(BlockComment, t, b);
    NothingToBlock(a, t + b);
    NothingToBlock(b, "");
    assert b + "" == b;
    hide ReplaceAll, MatchLength, CloseBlock;
    assert Replacement(BlockComment) + b == b;
  }

  lemma StretchIsSilent(a: string, mid: string, b: string, s: string)
    requires '/' !in a && '*' !in mid && '/' !in b && Silent(a) && Silent(b)
    requires s == a + (("/*" + (mid + "*/")) + b)
    ensures !HasReturningClause(StripSqlComments(s))
  {
    StretchIsDeleted(a, mid, b);
    hide ReplaceAll, StripSqlComments, HasReturningClause;
    SilentOnceUnblocked(s);
  }

  // ----- Comment openers inside literals and identifiers -----

  /** A quoted item: a literal or an identifier. */
  function Item(q: char, body: string): Piece
    requires q == '\'' || q == '\"'
  {
    if q == '\'' then Str(body) else Ident(body)
  }

  lemma ItemText(q: char, body: string)
    requires (q == '\'' || q == '\"') && q !in body
    ensures Text(Item(q, body)) == [q] + (body + [q]) && Valid(Item(q, body))
    ensures forall rest :: rest == "" || rest[0] != q ==> EndsBefore(Item(q, body), rest)
  {
    QuotedPlain(q, body);
  }

  lemma Regroup(a: string, o: string, m: string, c: string, z: string)
    ensures (a + o) + (m + (c + z)) == a + ((o + (m + c)) + z)
  {
  }

  lemma RegroupItem(q: string, o: string, w: string, c: string)
    ensures (q + (o + q)) + (w + (q + (c + q))) == q + ((o + ((q + (w + q)) + c)) + q)
  {
    var m := q + (w + q);
    assert q + (o + q) == (q + o) + q;
    assert (q + (o + q)) + (w + (q + (c + q))) == (q + o) + (m + (c + q)) by {
      assert w + (q + (c + q)) == (w + q) + (c + q);
      assert ((q + o) + q) + ((w + q) + (c + q)) == (q + o) + (q + ((w + q) + (c + q)));
      assert q + ((w + q) + (c + q)) == m + (c + q);
    }
    Regroup(q, o, m, c, q);
  }

  lemma ItemsAround(q: char, w: string)
    requires (q == '\'' || q == '\"') && IsWordText(w)
    ensures var ps := [Item(q, "/*"), Word(w), Item(q, "*/")];
            Lex(Render(ps)) == Some(ps) &&
            Render(ps) == [q] + (("/*" + (([q] + (w + [q])) + "*/")) + [q])
  {
    ItemText(q, "/*");
    ItemText(q, "*/");
    assert Text(Word(w)) == w && Valid(Word(w)) && !IsWordChar(q);
    ItemsRead(Item(q, "/*"), Word(w), Item(q, "*/"), [q] + ("/*" + [q]), [q] + ("*/" + [q]), q);
    RegroupItem([q], "/*", w, "*/");
    hide Lex, Render, Item;
  }

  /** A quoted item, a word and a quoted item read back. */
  lemma ItemsRead(x: Piece, y: Piece, z: Piece, open: string, close: string, q: char)
    requires Valid(x) && Valid(y) && Valid(z) && y.Word? && Text(x) == open && Text(z) == close
    requires close != "" && close[0] == q && !IsWordChar(q)
    requires forall rest :: rest == "" || rest[0] != q ==> EndsBefore(x, rest)
    ensures Lex(Render([x, y, z])) == Some([x, y, z]) && Render([x, y, z]) == open + (y.text + close)
  {
    var w := y.text;
    assert Text(y) == w;
    assert (w + close)[0] == w[0];
    assert EndsBefore(x, w + close) && EndsBefore(y, close);
    hide Text, Lex, Valid, EndsBefore, Render;
    ThreePieces(x, y, z);
    LexItems(x, y, z);
  }

  lemma LexItems(x: Piece, y: Piece, z: Piece)
    requires Valid(x) && Valid(y) && Valid(z) && !y.Gap? && Separated([x, y, z])
    ensures Lex(Render([x, y, z])) == Some([x, y, z])
  {
    hide Separated, Lex, Render;
    LexComplete([x, y, z]);
  }

  lemma WordHasNoMarks(q: char, w: string)
    requires (q == '\'' || q == '\"') && IsWordText(w)
    ensures '*' !in [q] + (w + [q])
  {
  }

  /** A block comment opener in a literal, or in a quoted identifier, hides the RETURNING up to the next
      closing pair. */
  lemma OpenersInItemsHideReturning(q: char, w: string)
    requires (q == '\'' || q == '\"') && IsWordText(w) && IsReturning(Word(w))
    ensures Misread([Item(q, "/*"), Word(w), Item(q, "*/")])
  {
    var ps := [Item(q, "/*"), Word(w), Item(q, "*/")];
    assert ps[1] in ps;
    ItemsAround(q, w);
    WordHasNoMarks(q, w);
    StretchIsSilent([q], [q] + (w + [q]), [q], Render(ps));
    hide StripSqlComments, Lex, Render, HasReturningClause, IsReturning, ReplaceAll, Item;
  }

  /** Two dashes in a quoted identifier hide the RETURNING on the rest of the line. */
  lemma DashesInIdentifierHideReturning(w: string)
    requires IsWordText(w) && IsReturning(Word(w))
    ensures Misread([Ident("--"), Word(w)])
  {
    var ps := [Ident("--"), Word(w)];
    assert ps[1] in ps;
    DashedIdentifier(w);
    DashedIdentifierIsCut(w);
    hide StripSqlComments, Lex, Render, HasReturningClause, IsReturning;
    SilentOnceStripped("\"");
  }

  lemma RegroupTail(q: string, d: string, w: string)
    ensures (q + (d + q)) + w == q + (d + (q + w))
  {
  }

  lemma DashedIdentifier(w: string)
    requires IsWordText(w)
    ensures var ps := [Ident("--"), Word(w)];
            Lex(Render(ps)) == Some(ps) && Render(ps) == ['\"'] + ("--" + (['\"'] + w))
  {
    var x, y := Ident("--"), Word(w);
    assert x == Item('\"', "--");
    ItemText('\"', "--");
    assert Text(y) == w && Valid(y) && EndsBefore(x, w);
    hide Text, Lex, Separated, Render, Valid, EndsBefore;
    TwoPieces(x, y);
    LexPair(x, y);
    RegroupTail(['\"'], "--", w);
  }

  lemma DashedIdentifierIsCut(w: string)
    requires IsWordText(w)
    ensures StripSqlComments(['\"'] + ("--" + (['\"'] + w))) == "\""
  {
    var t := ['\"'] + w;
    var s := ['\"'] + ("--" + t);
    assert '/' !in s;
    NothingToBlock(s, "");
    assert s + "" == s;
    assert ReplaceAll(BlockComment, "") == "";
    CopiesText(LineComment, ['\"'], "--" + t);
    assert t + "" == t;
    LineLengthWhole(t, "");
    assert ("--" + t)[2..] == t;
    assert MatchLength(LineComment, "--" + t) == Some(|"--" + t|);
    assert ("--" + t)[|"--" + t|..] == "";
  }

  // ----- Block openers inside line comments -----

  lemma LinesRead(a: Piece, b: Piece, c: Piece, d: Piece)
    requires Valid(a) && Valid(b) && Valid(c) && Valid(d) && !c.Gap? && a.Line? && b.Gap? && b.text[0] == '\n'
    requires c.Word? && d.Line?
    ensures Lex(Render([a, b, c, d])) == Some([a, b, c, d])
    ensures Render([a, b, c, d]) == Text(a) + (b.text + (c.text + Text(d)))
  {
    var rest := c.text + Text(d);
    assert Text(b) == b.text && Text(c) == c.text && Text(d)[0] == '-';
    assert (b.text + rest)[0] == '\n';
    assert EndsBefore(a, b.text + rest) && EndsBefore(b, rest) && EndsBefore(c, Text(d));
    hide Text, Lex, Valid, EndsBefore, Render, Separated;
    FourPieces(a, b, c, d);
    LexComplete([a, b, c, d]);
  }

  lemma RegroupLines(d: string, o: string, n: string, w: string, c: string)
    ensures (d + o) + (n + (w + (d + c))) == d + ((o + ((n + (w + d)) + c)) + "")
  {
    var m := n + (w + d);
    assert n + (w + (d + c)) == m + c;
    assert (o + (m + c)) + "" == o + (m + c);
  }

  lemma LinesAround(w: string)
    requires IsWordText(w)
    ensures var ps := [Line("/*"), Gap("\n"), Word(w), Line("*/")];
            Lex(Render(ps)) == Some(ps) &&
            Render(ps) == "--" + (("/*" + (("\n" + (w + "--")) + "*/")) + "")
  {
    assert Text(Line("/*")) == "--" + "/*" && Text(Line("*/")) == "--" + "*/";
    LinesRead(Line("/*"), Gap("\n"), Word(w), Line("*/"));
    RegroupLines("--", "/*", "\n", w, "*/");
    hide Lex, Render, Text;
  }

  lemma FourPieces(a: Piece, b: Piece, c: Piece, d: Piece)
    ensures Render([a, b, c, d]) == Text(a) + (Text(b) + (Text(c) + Text(d)))
    ensures Separated([a, b, c, d]) <==>
            && EndsBefore(a, Text(b) + (Text(c) + Text(d)))
            && EndsBefore(b, Text(c) + Text(d)) && EndsBefore(c, Text(d))
  {
    assert [a, b, c, d][1..] == [b, c, d];
    ThreePieces(b, c, d);
  }

  lemma LinesAreSilent(d: string, n: string, w: string, s: string)
    requires IsWordText(w) && '*' !in d && '*' !in n && '/' !in d && Silent(d)
    requires s == d + (("/*" + ((n + (w + d)) + "*/")) + "")
    ensures !HasReturningClause(StripSqlComments(s))
  {
    hide StripSqlComments, HasReturningClause, ReplaceAll;
    StretchIsSilent(d, n + (w + d), "", s);
  }

  /** A block comment opener in a line comment hides the RETURNING on the lines below. */
  lemma OpenerInLineCommentHidesReturning(w: string)
    requires IsWordText(w) && IsReturning(Word(w))
    ensures Misread([Line("/*"), Gap("\n"), Word(w), Line("*/")])
  {
    var ps := [Line("/*"), Gap("\n"), Word(w), Line("*/")];
    assert ps[2] in ps;
    LinesAround(w);
    LinesAreSilent("--", "\n", w, Render(ps));
    hide StripSqlComments, Lex, Render, HasReturningClause, IsReturning, ReplaceAll;
  }

  // ----- Two letters that upper-case to ASCII -----

  lemma {:induction false} WholeField(s: string)
    requires forall i :: 0 <= i < |s| ==> !IsSpace(s[i])
    ensures FieldLength(s) == |s|
  {
    if s == "" {
    } else {
      WholeField(s[1..]);
    }
  }

  lemma {:induction false} ShortHasNoReturning(inWord: bool, s: string)
    requires |s| < 9
    ensures !ReturningIn(inWord, s)
    decreases |s|
  {
    if s == "" {
    } else {
      ShortHasNoReturning(IsWordChar(s[0]), s[1..]);
    }
  }

  /** A short text of letters only is a keyword statement if its upper-case form is a keyword. */
  lemma ShortKeywordText(s: string)
    requires 0 < |s| < 9 && IsKeyword(s)
    requires forall i :: 0 <= i < |s| ==> IsWordChar(s[i]) || s[i] == '\U{0131}' || s[i] == '\U{017F}'
    ensures IsDdlDml(s) == Is(true)
  {
    assert forall i :: 0 <= i < |s| ==> !IsSpace(s[i]) && s[i] !in "/-'\"(;";
    SlashlessIsStripped(s);
    WholeField(s);
    assert s[..|s|] == s;
    assert TrimRight(s) == s;
    forall p: Pattern | p == SingleQuoted || p == DoubleQuoted ensures ReplaceAll(p, s) == s {
      forall i | 0 <= i < |s| ensures !MayOpen(p, s[i..]) {
        assert s[i..][0] == s[i];
      }
      PassCopies(p, s);
    }
    ShortHasNoReturning(false, s);
    hide StripSqlComments, IsKeyword;
  }

  lemma WordPieces(a: Piece, b: Piece, c: Piece)
    requires a.Word? || a.Punct?
    requires b.Word? || b.Punct?
    requires c.Word? || c.Punct?
    ensures Quiet(a) && Quiet(b) && Quiet(c)
    ensures Apply(BlockComment, [a, b, c]) == [a, b, c] && Apply(LineComment, [a, b, c]) == [a, b, c]
  {
    ApplyNothing(BlockComment, [a, b, c]);
    ApplyNothing(LineComment, [a, b, c]);
  }

  /** The second piece of `U`, long s, `E` is no letter to the tokenizer, yet the text counts as USE. */
  lemma LongSMakesAKeyword()
    ensures var ps := [Word("U"), Punct('\U{017F}'), Word("E")];
            && Lex(Render(ps)) == Some(ps) && Orderly(ps)
            && !StartsWithKeyword(ps) && IsDdlDml(Render(ps)) == Is(true)
  {
    var ps := [Word("U"), Punct('\U{017F}'), Word("E")];
    LongSTokens();
    LongSIsUse();
    assert ps[0] == Word("U") && FirstToken(ps) == Some(ps[0]) by {
      hide Uncommented, SkipGaps;
    }
    hide Lex, Render, IsDdlDml, Separated, Orderly, IsKeyword, SkipGaps, Uncommented, FirstToken;
  }

  lemma LongSIsUse()
    ensures !IsKeyword("U") && IsDdlDml("U\U{017F}E") == Is(true)
  {
    var s := "U\U{017F}E";
    var u := UpperString(s);
    assert u[0] == 'U' && u[1] == 'S' && u[2] == 'E';
    assert u == "USE";
    assert |UpperString("U")| == 1;
    ShortIsNoKeyword("U");
    ShortKeywordText(s);
    hide IsDdlDml, UpperString;
  }

  lemma ShortIsNoKeyword(w: string)
    requires |w| < 3
    ensures !IsKeyword(w)
  {
    forall k | k in KEYWORDS ensures |k| >= 3 {
    }
  }

  lemma LongSTokens()
    ensures var ps := [Word("U"), Punct('\U{017F}'), Word("E")];
            && Lex(Render(ps)) == Some(ps) && Orderly(ps) && Render(ps) == "U\U{017F}E"
            && SkipGaps(Uncommented(ps)) == ps
  {
    var a, b, c := Word("U"), Punct('\U{017F}'), Word("E");
    assert Text(a) == "U" && Text(b) == "\U{017F}" && Text(c) == "E";
    assert Valid(a) && Valid(b) && Valid(c) && EndsBefore(a, "\U{017F}" + "E") && EndsBefore(b, "E");
    WordPieces(a, b, c);
    hide Text, Lex, Valid, EndsBefore, Render, Apply, Quiet;
    ThreePieces(a, b, c);
    LexItems(a, b, c);
    assert SkipGaps([a, b, c]) == [a, b, c];
  }

  /** A dotless i before `NSERT` counts as INSERT. */
  lemma DotlessIMakesAKeyword()
    ensures var ps := [Punct('\U{0131}'), Word("NSERT")];
            && Lex(Render(ps)) == Some(ps) && Orderly(ps)
            && !StartsWithKeyword(ps) && IsDdlDml(Render(ps)) == Is(true)
  {
    var ps := [Punct('\U{0131}'), Word("NSERT")];
    DotlessITokens();
    DotlessIIsInsert();
    assert ps[0] == Punct('\U{0131}') && FirstToken(ps) == Some(ps[0]) by {
      hide Uncommented, SkipGaps;
    }
    hide Lex, Render, IsDdlDml, Separated, Orderly, IsKeyword, SkipGaps, Uncommented, FirstToken;
  }

  lemma DotlessIIsInsert()
    ensures IsDdlDml("\U{0131}NSERT") == Is(true)
  {
    var s := "\U{0131}NSERT";
    var u := UpperString(s);
    assert u[0] == 'I' && u[1] == 'N' && u[2] == 'S' && u[3] == 'E' && u[4] == 'R' && u[5] == 'T';
    assert u == "INSERT";
    ShortKeywordText(s);
    hide IsDdlDml, UpperString;
  }

  lemma DotlessITokens()
    ensures var ps := [Punct('\U{0131}'), Word("NSERT")];
            && Lex(Render(ps)) == Some(ps) && Orderly(ps) && Render(ps) == "\U{0131}NSERT"
            && SkipGaps(Uncommented(ps)) == ps
  {
    assert IsWordText("NSERT");
    PunctAndWord('\U{0131}', "NSERT");
    hide Lex, Render, Orderly, SkipGaps, Uncommented;
  }

  lemma PunctAndWord(c: char, w: string)
    requires Valid(Punct(c)) && c != '/' && c != '-' && IsWordText(w)
    ensures var ps := [Punct(c), Word(w)];
            && Lex(Render(ps)) == Some(ps) && Orderly(ps) && Render(ps) == [c] + w
            && SkipGaps(Uncommented(ps)) == ps
  {
    var a, b := Punct(c), Word(w);
    assert Text(a) == [c] && Text(b) == w && Valid(b) && EndsBefore(a, w) && Quiet(a) && Quiet(b);
    ApplyNothing(BlockComment, [a, b]);
    ApplyNothing(LineComment, [a, b]);
    hide Text, Lex, Valid, EndsBefore, Render, Apply, Quiet;
    TwoPieces(a, b);
    LexPair(a, b);
    assert SkipGaps([a, b]) == [a, b];
  }

  lemma LexPair(x: Piece, y: Piece)
    requires Valid(x) && Valid(y) && !y.Gap? && Separated([x, y])
    ensures Lex(Render([x, y])) == Some([x, y])
  {
    hide Separated, Lex, Render;
    LexComplete([x, y]);
  }
}
