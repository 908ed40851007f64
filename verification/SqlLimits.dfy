/**
The tokenizer reads back every well-formed token list, and families of texts, given as token lists, on
which the classifier departs from the tokens. Module SqlWitnesses has the remaining ones.
*/
module SqlLimits {
  import opened Wrappers
  import opened SqlScanner
  import opened SqlLexer
  import opened SqlPasses
  import opened SqlRefinement

  // ----- Writing and reading back -----

  predicate GapsApart(ps: seq<Piece>) {
    forall i :: 0 <= i < |ps| - 1 ==> !(ps[i].Gap? && ps[i + 1].Gap?)
  }

  lemma {:induction false} SpaceRunWhole(t: string, rest: string)
    requires forall i :: 0 <= i < |t| ==> IsSpace(t[i])
    requires rest == "" || !IsSpace(rest[0])
    ensures SpaceRun(t + rest) == |t|
  {
    if t == "" {
      assert t + rest == rest;
    } else {
      SpaceRunWhole(t[1..], rest);
      assert (t + rest)[1..] == t[1..] + rest;
    }
  }

  lemma {:induction false} WordRunWhole(t: string, rest: string)
    requires forall i :: 0 <= i < |t| ==> IsWordChar(t[i])
    requires rest == "" || !IsWordChar(rest[0])
    ensures WordRun(t + rest) == |t|
  {
    if t == "" {
      assert t + rest == rest;
    } else {
      WordRunWhole(t[1..], rest);
      assert (t + rest)[1..] == t[1..] + rest;
    }
  }

  /** Reading a quoted body undoes writing it. */
  lemma {:induction false} ReadQuotedWhole(q: char, b: string, rest: string)
    requires rest == "" || rest[0] != q
    ensures ReadQuoted(q, Doubled(q, b) + [q] + rest) == Some(Body(b, |Doubled(q, b)| + 1))
  {
    if b != "" {
      DoubledStep(q, b, rest);
      ReadQuotedWhole(q, b[1..], rest);
      assert b == [b[0]] + b[1..];
      hide Doubled;
    } else {
      assert Doubled(q, b) + [q] + rest == [q] + rest;
    }
  }

  lemma ReadsQuotedPiece(q: char, b: string, rest: string)
    requires q == '\'' || q == '\"'
    requires rest == "" || rest[0] != q
    ensures ReadPiece(Quoted(q, b) + rest) ==
            Some(Token(if q == '\'' then Str(b) else Ident(b), |Quoted(q, b)|))
  {
    ReadQuotedWhole(q, b, rest);
    assert (Quoted(q, b) + rest)[1..] == Doubled(q, b) + [q] + rest;
  }

  lemma OpenerBody(closing: string, rest: string)
    requires |closing| >= 2
    ensures var s := "/*" + closing + rest;
            Opens(s, '/', '*') && s[2..] == closing + rest && s[2..|closing|] == closing[..|closing| - 2]
  {
    DropsOpener('/', '*', closing, rest);
    var s := "/*" + closing + rest;
    assert s[2..|closing|] == s[2..][..|closing| - 2];
  }

  /** `closing` is the body of a block comment with its closing pair. */
  lemma ReadsBlock(closing: string, rest: string)
    requires |closing| >= 2 && CloseBlock(closing) == Some(|closing|)
    ensures ReadPiece("/*" + closing + rest) == Some(Token(Block(closing[..|closing| - 2]), |closing| + 2))
  {
    hide CloseBlock, SpaceRun, WordRun;
    CloseBlockExtends(closing, rest);
    OpenerBody(closing, rest);
    var s := "/*" + closing + rest;
    assert s[0] == '/' && !IsSpace(s[0]) && !IsWordChar(s[0]);
    ReadsOpenedBlock(s, |closing|);
  }

  lemma ReadsOpenedBlock(s: string, n: nat)
    requires s != "" && !IsSpace(s[0]) && !IsWordChar(s[0]) && Opens(s, '/', '*')
    requires CloseBlock(s[2..]) == Some(n)
    ensures ReadPiece(s) == Some(Token(Block(s[2..n]), n + 2))
  {
  }

  lemma ReadsLine(b: string, rest: string)
    requires forall i :: 0 <= i < |b| ==> b[i] != '\n'
    requires rest == "" || rest[0] == '\n'
    ensures ReadPiece("--" + b + rest) == Some(Token(Line(b), |b| + 2))
  {
    LineLengthWhole(b, rest);
    DropsOpener('-', '-', b, rest);
    var s := "--" + b + rest;
    assert s[2..|b| + 2] == b;
  }

  lemma ReadsRun(x: Piece, rest: string)
    requires (x.Gap? || x.Word?) && Valid(x) && EndsBefore(x, rest) && (x.Gap? && rest != "" ==> !IsSpace(rest[0]))
    ensures x.text + rest != "" && ReadPiece(x.text + rest) == Some(Token(x, |x.text|))
  {
    var t := x.text;
    assert (t + rest)[..|t|] == t && (t + rest)[0] == t[0];
    if x.Gap? {
      SpaceRunWhole(t, rest);
    } else {
      WordRunWhole(t, rest);
      assert !IsSpace(t[0]);
    }
    hide SpaceRun, WordRun;
  }

  lemma ReadsPiece(x: Piece, rest: string)
    requires Valid(x) && EndsBefore(x, rest) && (x.Gap? && rest != "" ==> !IsSpace(rest[0]))
    ensures Text(x) + rest != "" && ReadPiece(Text(x) + rest) == Some(Token(x, |Text(x)|))
  {
    match x
    case Gap(t) => ReadsRun(x, rest); hide ReadPiece;
    case Word(t) => ReadsRun(x, rest); hide ReadPiece;
    case Punct(_) =>
    case Str(b) => ReadsQuotedPiece('\'', b, rest); hide ReadPiece;
    case Ident(b) => ReadsQuotedPiece('\"', b, rest); hide ReadPiece;
    case Block(b) => ReadsBlock(b + "*/", rest); assert (b + "*/")[..|b|] == b; hide ReadPiece;
    case Line(b) => ReadsLine(b, rest); hide ReadPiece;
  }

  /** With `LexSound`: tokenizing and writing out are inverse to each other. */
  lemma {:induction false} LexComplete(ps: seq<Piece>)
    requires AllValid(ps) && Separated(ps) && GapsApart(ps)
    ensures Lex(Render(ps)) == Some(ps)
  {
    if ps == [] {
    } else {
      var x, rest := ps[0], Render(ps[1..]);
      LexComplete(ps[1..]);
      if |ps| > 1 {
        ValidTextNonempty(ps[1]);
        assert rest[0] == Text(ps[1])[0];
      }
      ReadsPiece(x, rest);
      assert (Text(x) + rest)[|Text(x)|..] == rest;
      assert ps == [x] + ps[1..];
    }
  }

  // ----- Where the classifier departs from the tokens -----

  /** The text misses a RETURNING token, or sees one where there is none. */
  predicate Misread(ps: seq<Piece>) {
    Lex(Render(ps)) == Some(ps) &&
    HasReturningClause(StripSqlComments(Render(ps))) != MentionsReturning(ps)
  }

  lemma TwoPieces(x: Piece, y: Piece)
    ensures Render([x, y]) == Text(x) + Text(y)
    ensures Separated([x, y]) <==> EndsBefore(x, Text(y))
  {
    assert [x, y][1..] == [y] && [y][1..] == [];
    RenderOne(y);
    assert Separated([y]);
  }

  lemma ThreePieces(x: Piece, y: Piece, z: Piece)
    ensures Render([x, y, z]) == Text(x) + (Text(y) + Text(z))
    ensures Separated([x, y, z]) <==> EndsBefore(x, Text(y) + Text(z)) && EndsBefore(y, Text(z))
  {
    assert [x, y, z][1..] == [y, z];
    TwoPieces(y, z);
  }

  predicate IsWordText(w: string) {
    w != "" && forall i :: 0 <= i < |w| ==> IsWordChar(w[i])
  }

  lemma PassCopies(p: Pattern, t: string)
    requires forall i :: 0 <= i < |t| ==> !MayOpen(p, t[i..])
    ensures ReplaceAll(p, t) == t
  {
    assert t + "" == t;
    forall i | 0 <= i < |t| ensures !MayOpen(p, t[i..] + "") {
      assert t[i..] + "" == t[i..];
    }
    CopiesText(p, t, "");
  }

  lemma LoneQuoteIsSilent()
    ensures TrimLeft("'") == "'" && !HasReturningClause("'")
  {
    assert CloseQuoted('\'', "") == None;
    assert ReplaceAll(SingleQuoted, "'") == ['\''] + ReplaceAll(SingleQuoted, "'"[1..]);
    assert ReplaceAll(DoubleQuoted, "'") == ['\''] + ReplaceAll(DoubleQuoted, "'"[1..]);
  }

  /** Two dashes inside a literal cut the line there, whatever it goes on with. */
  lemma DashesCutTheLine(t: string)
    requires forall i :: 0 <= i < |t| ==> t[i] != '\n' && t[i] != '/'
    ensures StripSqlComments("'" + ("--" + t)) == "'"
  {
    var s := "'" + ("--" + t);
    assert forall i :: 0 <= i < |s| ==> s[i] != '/';
    PassCopies(BlockComment, s);
    CopiesText(LineComment, "'", "--" + t);
    assert t + "" == t;
    LineLengthWhole(t, "");
    assert ("--" + t)[2..] == t;
    assert MatchLength(LineComment, "--" + t) == Some(|"--" + t|);
    assert ("--" + t)[|"--" + t|..] == "";
    LoneQuoteIsSilent();
  }

  lemma QuotedPlain(q: char, b: string)
    requires q !in b
    ensures Quoted(q, b) == [q] + (b + [q])
  {
    NothingDoubled(q, b);
  }

  lemma DashedTokens(w: string)
    requires IsWordText(w)
    ensures var ps := [Str("--"), Word(w)];
            Lex(Render(ps)) == Some(ps) && Render(ps) == "'" + ("--" + ("'" + w))
  {
    var ps := [Str("--"), Word(w)];
    assert Text(Word(w)) == w && Valid(ps[0]) && Valid(ps[1]) && EndsBefore(ps[0], w);
    assert Text(ps[0]) == ['\''] + ("--" + ['\'']) by {
      QuotedPlain('\'', "--");
    }
    hide Text, Lex, Separated, Render, Valid, EndsBefore;
    TwoPieces(ps[0], ps[1]);
    LexComplete(ps);
    assert ['\''] + ("--" + ['\'']) + w == "'" + ("--" + ("'" + w));
  }

  /** A RETURNING written after the literal `'--'` is not seen. */
  lemma DashesInLiteralHideReturning(w: string)
    requires IsWordText(w) && IsReturning(Word(w))
    ensures Misread([Str("--"), Word(w)])
  {
    var ps := [Str("--"), Word(w)];
    assert ps[1] in ps;
    DashedTokens(w);
    DashesCutTheLine("'" + w);
    LoneQuoteIsSilent();
    hide StripSqlComments, Lex, Render, HasReturningClause, IsReturning;
  }

  lemma {:induction false} NothingDoubled(q: char, b: string)
    requires q !in b
    ensures Doubled(q, b) == b
  {
    if b == "" {
    } else {
      NothingDoubled(q, b[1..]);
      assert b == [b[0]] + b[1..];
    }
  }

  lemma WordTextIsStripped(w: string)
    requires IsWordText(w)
    ensures ReplaceAll(LineComment, w) == w && TrimLeft(w) == w
  {
    forall i | 0 <= i < |w| ensures !MayOpen(LineComment, w[i..]) {
      assert w[i..][0] == w[i];
    }
    PassCopies(LineComment, w);
  }

  lemma {:induction false} ApplyNothing(p: Pattern, ps: seq<Piece>)
    requires forall x :: x in ps ==> !Target(p, x)
    ensures Apply(p, ps) == ps
  {
    if ps == [] {
    } else {
      assert forall x :: x in ps[1..] ==> x in ps;
      ApplyNothing(p, ps[1..]);
      assert ps[0] in ps;
      assert Pass(p, ps[0]) == [ps[0]];
      assert ps == [ps[0]] + ps[1..];
    }
  }

  lemma GluedWordIsFound(w: string)
    requires IsWordText(w) && IsReturning(Word(w))
    ensures HasReturningClause(TrimLeft(ReplaceAll(LineComment, w)))
  {
    WordTextIsStripped(w);
    var whole := [Word(w)];
    RenderOne(whole[0]);
    assert whole[0] in whole && whole[1..] == [];
    BareSearch(whole);
  }

  lemma EmptyCommentIsValid()
    ensures Valid(Block("")) && Text(Block("")) != "" && Text(Block(""))[0] == '/'
  {
    assert "" + "*/" == "*/" && CloseBlock("*/") == Some(2);
  }

  lemma GluedTokens(a: string, b: string)
    requires IsWordText(a) && IsWordText(b)
    ensures var ps := [Word(a), Block(""), Word(b)];
            Lex(Render(ps)) == Some(ps) && ReplaceAll(BlockComment, Render(ps)) == a + b
  {
    var ps := [Word(a), Block(""), Word(b)];
    hide Text, Lex, ReplaceAll, Render;
    ThreePieces(ps[0], ps[1], ps[2]);
    EmptyCommentIsValid();
    WordTexts(a, b);
    assert Text(ps[1]) + Text(ps[2]) != "" && (Text(ps[1]) + Text(ps[2]))[0] == '/';
    assert EndsBefore(ps[0], Text(ps[1]) + Text(ps[2])) && EndsBefore(ps[1], Text(ps[2]));
    assert AllValid(ps) && GapsApart(ps) && AllClear(BlockComment, ps);
    hide Valid, EndsBefore, Separated, Clear;
    LexComplete(ps);
    PassOnText(BlockComment, ps);
    assert ps[1..] == [Block(""), Word(b)] && ps[1..][1..] == [Word(b)];
    ApplyNothing(BlockComment, [Word(b)]);
    assert Apply(BlockComment, ps[1..]) == [] + [Word(b)];
    assert Apply(BlockComment, ps) == [Word(a), Word(b)];
    TwoPieces(Word(a), Word(b));
  }

  /** Deleting a comment between the two halves of a word makes a RETURNING out of them. */
  lemma DeletedCommentMakesReturning(a: string, b: string)
    requires IsWordText(a) && IsWordText(b) && IsReturning(Word(a + b))
    ensures Misread([Word(a), Block(""), Word(b)])
  {
    var ps := [Word(a), Block(""), Word(b)];
    assert !MentionsReturning(ps) by {
      assert forall x :: x in ps ==> x == Word(a) || x == Block("") || x == Word(b);
    }
    hide Lex, Render, ReplaceAll, HasReturningClause, MentionsReturning;
    GluedTokens(a, b);
    GluedWordIsFound(a + b);
  }

  lemma WordTexts(a: string, b: string)
    ensures Text(Word(a)) == a && Text(Word(b)) == b
    ensures forall rest :: EndsBefore(Block(""), rest)
    ensures Valid(Word(a)) <==> IsWordText(a)
  {
  }

  lemma IdentifierTokens(w: string)
    requires IsWordText(w)
    ensures var ps := [Ident("'"), Word(w), Ident("'")]; var id := ['\"', '\'', '\"'];
            Lex(Render(ps)) == Some(ps) && Render(ps) == id + (w + id)
  {
    var ps := [Ident("'"), Word(w), Ident("'")];
    var id := ['\"', '\'', '\"'];
    assert Text(Ident("'")) == id by { QuotedPlain('\"', "'"); }
    assert AllValid(ps) && GapsApart(ps) && Text(ps[1]) == w;
    assert EndsBefore(ps[0], w + id) && EndsBefore(ps[1], id);
    hide Text, Lex, Valid, EndsBefore, Render;
    ThreePieces(ps[0], ps[1], ps[2]);
    LexComplete(ps);
  }

  lemma SlashlessIsStripped(s: string)
    requires s != "" && !IsTrimSpace(s[0]) && '/' !in s && '-' !in s
    ensures StripSqlComments(s) == s
  {
    forall i | 0 <= i < |s| ensures !MayOpen(BlockComment, s[i..]) && !MayOpen(LineComment, s[i..]) {
      assert s[i..][0] == s[i];
    }
    PassCopies(BlockComment, s);
    PassCopies(LineComment, s);
  }

  lemma NothingToStrip(w: string)
    requires IsWordText(w)
    ensures var s := ['\"', '\'', '\"'] + (w + ['\"', '\'', '\"']); StripSqlComments(s) == s
  {
    var s := ['\"', '\'', '\"'] + (w + ['\"', '\'', '\"']);
    assert forall i :: 0 <= i < |s| ==> s[i] != '/' && s[i] != '-';
    assert s[0] == '\"';
    hide StripSqlComments;
    SlashlessIsStripped(s);
  }

  /** Single quotes in two quoted identifiers are taken for one literal, and the RETURNING between
      them is blanked. */
  lemma QuotesInIdentifiersHideReturning(w: string)
    requires IsWordText(w) && IsReturning(Word(w))
    ensures Misread([Ident("'"), Word(w), Ident("'")])
  {
    hide StripSqlComments, Lex, Render, HasReturningClause, IsReturning;
    var ps := [Ident("'"), Word(w), Ident("'")];
    assert ps[1] in ps;
    IdentifierTokens(w);
    NothingToStrip(w);
    QuotedStretchIsBlanked(w);
  }

  lemma StretchAsLiteral(w: string)
    requires IsWordText(w)
    ensures var id := ['\"', '\'', '\"']; var dq := ['\"'];
            id + (w + id) == dq + (Quoted('\'', dq + w + dq) + dq)
  {
    var dq := ['\"'];
    QuotedPlain('\'', dq + w + dq);
    hide Quoted, Doubled;
  }

  lemma TwoQuotesAreSilent()
    ensures var blanked := ['\"', '\'', '\'', '\"']; !ReturningIn(false, ReplaceAll(DoubleQuoted, blanked))
  {
    QuotedPlain('\"', "''");
    var blanked := Quoted('\"', "''");
    assert blanked == ['\"', '\'', '\'', '\"'];
    MatchesQuoted('\"', "''", "");
    assert blanked + "" == blanked;
    ReplacesMatch(DoubleQuoted, blanked, "");
    assert ReplaceAll(DoubleQuoted, blanked) == "\"\"" + "";
    SearchSkips(false, "\"\"", "");
  }

  lemma QuotedStretchIsBlanked(w: string)
    requires IsWordText(w)
    ensures var id := ['\"', '\'', '\"']; !HasReturningClause(id + (w + id))
  {
    var id := ['\"', '\'', '\"'];
    var dq := ['\"'];
    var inner := dq + w + dq;
    var lit := Quoted('\'', inner);
    StretchAsLiteral(w);
    CopiesText(SingleQuoted, dq, lit + dq);
    MatchesQuoted('\'', inner, dq);
    ReplacesMatch(SingleQuoted, lit, dq);
    PassCopies(SingleQuoted, dq);
    hide Quoted, ReplaceAll, ReturningIn;
    assert dq + ("''" + dq) == ['\"', '\'', '\'', '\"'];
    TwoQuotesAreSilent();
  }

  lemma KeywordTokens(k: string, w: string)
    requires IsWordText(k) && IsWordText(w)
    ensures var ps := [Word(k), Punct('('), Word(w)]; Lex(Render(ps)) == Some(ps)
  {
    var ps := [Word(k), Punct('('), Word(w)];
    assert AllValid(ps) && GapsApart(ps);
    assert Text(ps[1]) + Text(ps[2]) == "(" + w;
    assert EndsBefore(ps[0], "(" + w) && EndsBefore(ps[1], w);
    hide Lex, Valid, EndsBefore, Render, Separated;
    ThreePieces(ps[0], ps[1], ps[2]);
    LexComplete(ps);
  }

  lemma KeywordTokensAreOrderly(k: string, w: string)
    requires IsWordText(k) && IsWordText(w)
    ensures var ps := [Word(k), Punct('('), Word(w)];
            Orderly(ps) && PlainSpelling(ps) && SkipGaps(Uncommented(ps)) == ps && !Delimited(ps[1..])
  {
    var ps := [Word(k), Punct('('), Word(w)];
    KeywordTokens(k, w);
    LexSound(Render(ps));
    hide Lex, Render, Separated;
    ApplyNothing(BlockComment, ps);
    ApplyNothing(LineComment, ps);
    hide Apply;
    assert !Delimited(ps[1..]) by {
      assert ps[1..] == [Punct('('), Word(w)] && ps[1..][1..] == [Word(w)];
    }
  }

  /** A keyword written against an opening parenthesis, as in `COPY(x`, is taken together with what
      follows it, and the statement is left to the lazy query path. */
  lemma KeywordAgainstParenthesisIsMissed(k: string, w: string)
    requires IsWordText(k) && IsKeyword(k) && IsWordText(w)
    ensures var ps := [Word(k), Punct('('), Word(w)];
            Lex(Render(ps)) == Some(ps) && StartsWithKeyword(ps) && IsDdlDml(Render(ps)) == Is(false)
  {
    hide Orderly, PlainSpelling, SkipGaps, Uncommented, Delimited, IsKeyword, Lex, Render, IsDdlDml;
    var ps := [Word(k), Punct('('), Word(w)];
    KeywordTokens(k, w);
    KeywordTokensAreOrderly(k, w);
    ClassifierOnTokens(Render(ps));
  }
}
