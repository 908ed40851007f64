/**
The multi-pass classifier against the one-pass tokenizer: on every text whose pieces do not hide
what a pass looks for, the classifier's answers are statements about tokens. Modules SqlLimits and
SqlWitnesses have texts on which each hypothesis fails, and the answers with it.
*/
module SqlRefinement {
  import opened Wrappers
  import opened SqlScanner
  import opened SqlLexer
  import opened SqlPasses

  // ----- Hypotheses a caller can check -----

  /** No comment opener inside a literal, identifier or (for block comments) line comment, and no
      single quote inside a quoted identifier. */
  predicate Quiet(x: Piece) {
    match x
    case Str(_) => !HasPair(Text(x), '/', '*') && !HasPair(Text(x), '-', '-')
    case Ident(_) => !HasPair(Text(x), '/', '*') && !HasPair(Text(x), '-', '-') && '\'' !in Text(x)
    case Line(_) => !HasPair(Text(x), '/', '*')
    case _ => true
  }

  /** The pieces are quiet, and deleting the block comments glues no two neighbours together. */
  predicate Orderly(ps: seq<Piece>) {
    && (forall i :: 0 <= i < |ps| ==> Quiet(ps[i]))
    && Separated(Apply(BlockComment, ps))
  }

  /** What remains of the text once comments are gone. */
  function Uncommented(ps: seq<Piece>): seq<Piece> {
    Apply(LineComment, Apply(BlockComment, ps))
  }

  // ----- What the classifier is meant to say, on tokens -----

  predicate IsReturning(x: Piece) {
    x.Word? && |x.text| == 9 && forall i :: 0 <= i < 9 ==> AsciiUpper(x.text[i]) == RETURNING[i]
  }

  predicate MentionsReturning(ps: seq<Piece>) {
    exists x :: x in ps && IsReturning(x)
  }

  function SkipGaps(ps: seq<Piece>): (r: seq<Piece>)
    ensures |r| <= |ps| && (r != [] ==> !r[0].Gap?)
  {
    if ps != [] && ps[0].Gap? then SkipGaps(ps[1..]) else ps
  }

  /** The first token that is neither white space nor a comment. */
  function FirstToken(ps: seq<Piece>): Option<Piece> {
    var ks := SkipGaps(Uncommented(ps));
    if ks == [] then None else Some(ks[0])
  }

  predicate StartsWithKeyword(ps: seq<Piece>) {
    FirstToken(ps).Some? && FirstToken(ps).value.Word? && IsKeyword(FirstToken(ps).value.text)
  }

  /** Nothing but `(` and `;` up to the next white space or the end. */
  predicate Delimited(ps: seq<Piece>) {
    || ps == []
    || ps[0].Gap?
    || (ps[0].Punct? && ps[0].c in "(;" && Delimited(ps[1..]))
  }

  predicate FirstTokenDelimited(ps: seq<Piece>) {
    SkipGaps(Uncommented(ps)) == [] || Delimited(SkipGaps(Uncommented(ps))[1..])
  }

  /** The first token and the piece right after it are no dotless i or long s. */
  predicate PlainSpelling(ps: seq<Piece>) {
    PlainStart(SkipGaps(Uncommented(ps)))
  }

  predicate PlainStart(ks: seq<Piece>) {
    forall i :: 0 <= i < |ks| && i < 2 ==> PlainPiece(ks[i])
  }

  predicate PlainPiece(x: Piece) {
    x.Punct? ==> Upper(x.c) == x.c
  }

  // ----- Comment stripping -----

  /** What holds of the pieces left once the comments are gone. */
  predicate Bare(ks: seq<Piece>) {
    && AllValid(ks)
    && Separated(ks)
    && forall i :: 0 <= i < |ks| ==> BarePiece(ks[i])
  }

  predicate BarePiece(x: Piece) {
    !x.Block? && !x.Line? && (x.Ident? ==> '\'' !in Text(x))
  }

  lemma QuietPieceIsClear(x: Piece)
    requires Quiet(x)
    ensures Clear(BlockComment, x) && (!x.Block? ==> Clear(LineComment, x))
  {
  }

  lemma QuietIsClear(ps: seq<Piece>)
    requires AllValid(ps) && forall i :: 0 <= i < |ps| ==> Quiet(ps[i])
    ensures AllClear(BlockComment, ps)
    ensures var qs := Apply(BlockComment, ps); AllValid(qs) && AllClear(LineComment, qs)
  {
    hide Quiet, Clear, Valid, Pass;
    forall i | 0 <= i < |ps| ensures Clear(BlockComment, ps[i]) {
      QuietPieceIsClear(ps[i]);
    }
    ApplyDrops(BlockComment, ps);
    var qs := Apply(BlockComment, ps);
    forall i | 0 <= i < |qs| ensures Valid(qs[i]) && Clear(LineComment, qs[i]) {
      assert qs[i] in qs;
      assert !Target(BlockComment, qs[i]);
      QuietPieceIsClear(qs[i]);
    }
  }

  lemma QuietPieceIsBare(x: Piece)
    requires Quiet(x) && !x.Block? && !x.Line?
    ensures BarePiece(x)
  {
  }

  lemma CommentsGone(ps: seq<Piece>)
    requires AllValid(ps) && forall i :: 0 <= i < |ps| ==> Quiet(ps[i])
    ensures var us := Uncommented(ps);
            && AllValid(us)
            && (forall i :: 0 <= i < |us| ==> BarePiece(us[i]))
            && forall x :: x in us ==> x in ps
  {
    hide Quiet, BarePiece, Valid;
    ApplyDrops(BlockComment, ps);
    ApplyDrops(LineComment, Apply(BlockComment, ps));
    var us := Uncommented(ps);
    forall i | 0 <= i < |us| ensures Valid(us[i]) && BarePiece(us[i]) {
      assert us[i] in us;
      QuietPieceIsBare(us[i]);
    }
  }

  lemma UncommentedIsBare(ps: seq<Piece>)
    requires AllValid(ps) && Separated(ps) && Orderly(ps)
    ensures Bare(Uncommented(ps))
    ensures ReplaceAll(LineComment, ReplaceAll(BlockComment, Render(ps))) == Render(Uncommented(ps))
    ensures forall x :: x in Uncommented(ps) ==> x in ps
  {
    var qs := Apply(BlockComment, ps);
    QuietIsClear(ps);
    CommentsGone(ps);
    PassOnText(BlockComment, ps);
    PassOnText(LineComment, qs);
    ApplySeparated(LineComment, qs);
  }

  lemma {:induction false} TrimKeepsReturning(t: string)
    ensures HasReturningClause(TrimLeft(t)) == HasReturningClause(t)
    decreases |t|
  {
    if t == "" || !IsTrimSpace(t[0]) {
    } else {
      TrimKeepsReturning(t[1..]);
      var u := ReplaceAll(SingleQuoted, t[1..]);
      assert ReplaceAll(SingleQuoted, t) == [t[0]] + u;
      assert ([t[0]] + u)[1..] == u;
      var v := ReplaceAll(DoubleQuoted, u);
      assert ReplaceAll(DoubleQuoted, [t[0]] + u) == [t[0]] + v;
      assert ([t[0]] + v)[1..] == v;
    }
  }

  // ----- The RETURNING search on bare pieces -----

  lemma {:induction false} SearchSkips(inWord: bool, t: string, rest: string)
    requires t != "" && forall i :: 0 <= i < |t| ==> !IsWordChar(t[i])
    ensures ReturningIn(inWord, t + rest) == ReturningIn(false, rest)
    decreases |t|
  {
    assert (t + rest)[1..] == t[1..] + rest;
    assert !ReturningHere(t + rest) by {
      assert (t + rest)[0] == t[0] && RETURNING[0] == 'R';
    }
    if |t| > 1 {
      SearchSkips(false, t[1..], rest);
    } else {
      assert t[1..] + rest == rest;
    }
  }

  lemma {:induction false} SearchInsideWord(t: string, rest: string)
    requires forall i :: 0 <= i < |t| ==> IsWordChar(t[i])
    ensures ReturningIn(true, t + rest) == ReturningIn(true, rest)
    decreases |t|
  {
    if t == "" {
      assert t + rest == rest;
    } else {
      SearchInsideWord(t[1..], rest);
      assert (t + rest)[1..] == t[1..] + rest;
    }
  }

  lemma ReturningHereIsWord(t: string, rest: string)
    requires t != "" && forall i :: 0 <= i < |t| ==> IsWordChar(t[i])
    requires rest == "" || !IsWordChar(rest[0])
    ensures ReturningHere(t + rest) <==> IsReturning(Word(t))
  {
    var s := t + rest;
    if |t| < 9 <= |s| {
      assert s[|t|] == rest[0];
      assert 'A' <= RETURNING[|t|] <= 'Z';
      assert AsciiUpper(s[|t|]) != RETURNING[|t|];
    }
    if |t| >= 9 {
      assert forall i :: 0 <= i < 9 ==> s[i] == t[i];
      assert |t| > 9 ==> s[9] == t[9];
      assert |t| == 9 && |s| > 9 ==> s[9] == rest[0];
    }
  }

  lemma AfterBoundary(rest: string)
    requires rest == "" || !IsWordChar(rest[0])
    ensures ReturningIn(true, rest) == ReturningIn(false, rest)
  {
    assert RETURNING[0] == 'R';
  }

  lemma SearchWord(t: string, rest: string)
    requires t != "" && forall i :: 0 <= i < |t| ==> IsWordChar(t[i])
    requires rest == "" || !IsWordChar(rest[0])
    ensures ReturningIn(false, t + rest) == (IsReturning(Word(t)) || ReturningIn(false, rest))
  {
    ReturningHereIsWord(t, rest);
    ConsConcat(t, rest);
    SearchInsideWord(t[1..], rest);
    AfterBoundary(rest);
    hide ReturningHere, IsReturning, AsciiUpper;
  }

  lemma BlankedHasNoWord(x: Piece)
    requires Valid(x) && Blanked(x) && !x.Word?
    ensures Text(x) != "" && forall i :: 0 <= i < |Text(x)| ==> !IsWordChar(Text(x)[i])
  {
    ValidTextNonempty(x);
  }

  /** Nothing but words can be taken for RETURNING once the quoted items are blanked. */
  lemma {:induction false} SearchFindsWords(ks: seq<Piece>)
    requires AllValid(ks) && Separated(ks)
    requires forall x :: x in ks ==> Blanked(x)
    ensures ReturningIn(false, Render(ks)) <==> MentionsReturning(ks)
  {
    if ks == [] {
    } else {
      var x, rest := ks[0], Render(ks[1..]);
      assert x in ks && forall y :: y in ks[1..] ==> y in ks;
      SearchFindsWords(ks[1..]);
      assert MentionsReturning(ks) <==> IsReturning(x) || MentionsReturning(ks[1..]) by {
        assert forall y :: y in ks ==> y == x || y in ks[1..];
      }
      if x.Word? {
        SearchWord(x.text, rest);
      } else {
        BlankedHasNoWord(x);
        SearchSkips(false, Text(x), rest);
      }
      hide Text, Valid, IsReturning, ReturningIn;
    }
  }

  lemma {:induction false} PassKeepsReturning(p: Pattern, ps: seq<Piece>)
    ensures MentionsReturning(Apply(p, ps)) <==> MentionsReturning(ps)
  {
    if ps == [] {
    } else {
      PassKeepsReturning(p, ps[1..]);
      var a, b := Pass(p, ps[0]), Apply(p, ps[1..]);
      assert forall x :: x in a + b <==> x in a || x in b;
      assert forall x :: x in ps <==> x == ps[0] || x in ps[1..];
    }
  }

  predicate Blanked(x: Piece) {
    x.Gap? || x.Word? || x.Punct? || x == Str("") || x == Ident("")
  }

  lemma BlankingClears(ks: seq<Piece>)
    requires Bare(ks)
    ensures AllClear(SingleQuoted, ks)
    ensures var bs := Apply(SingleQuoted, ks); AllValid(bs) && AllClear(DoubleQuoted, bs)
    ensures forall x :: x in Apply(SingleQuoted, ks) ==> Blanked(x) || x.Ident?
  {
    ApplyMembers(SingleQuoted, ks);
    assert Text(Str("")) == "''";
  }

  lemma BlankingLeavesWords(bs: seq<Piece>)
    requires AllValid(bs) && forall x :: x in bs ==> Blanked(x) || x.Ident?
    ensures AllValid(Apply(DoubleQuoted, bs)) && forall x :: x in Apply(DoubleQuoted, bs) ==> Blanked(x)
  {
    ApplyMembers(DoubleQuoted, bs);
  }

  lemma BareSearch(ks: seq<Piece>)
    requires Bare(ks)
    ensures HasReturningClause(Render(ks)) <==> MentionsReturning(ks)
  {
    var bs := Apply(SingleQuoted, ks);
    BlankingClears(ks);
    BlankingLeavesWords(bs);
    PassOnText(SingleQuoted, ks);
    ApplySeparated(SingleQuoted, ks);
    PassOnText(DoubleQuoted, bs);
    ApplySeparated(DoubleQuoted, bs);
    SearchFindsWords(Apply(DoubleQuoted, bs));
    PassKeepsReturning(SingleQuoted, ks);
    PassKeepsReturning(DoubleQuoted, bs);
  }

  /** The RETURNING test of the classifier, comments stripped, holds exactly of the texts one of
      whose word tokens is RETURNING in any case. */
  lemma ReturningMeansReturningToken(sql: string)
    requires Lex(sql).Some? && Orderly(Lex(sql).value)
    ensures HasReturningClause(StripSqlComments(sql)) <==> MentionsReturning(Lex(sql).value)
  {
    var ps := Lex(sql).value;
    LexSound(sql);
    UncommentedIsBare(ps);
    TrimKeepsReturning(Render(Uncommented(ps)));
    BareSearch(Uncommented(ps));
    PassKeepsReturning(BlockComment, ps);
    PassKeepsReturning(LineComment, Apply(BlockComment, ps));
  }

  // ----- The first field -----

  lemma {:induction false} SkipAfterTrim(t: string)
    ensures SkipSpace(TrimLeft(t)) == SkipSpace(t)
  {
    if t == "" || !IsTrimSpace(t[0]) {
    } else {
      SkipAfterTrim(t[1..]);
    }
  }

  lemma {:induction false} SkipSpaces(t: string, rest: string)
    requires forall i :: 0 <= i < |t| ==> IsSpace(t[i])
    ensures SkipSpace(t + rest) == SkipSpace(rest)
  {
    if t == "" {
      assert t + rest == rest;
    } else {
      SkipSpaces(t[1..], rest);
      assert (t + rest)[1..] == t[1..] + rest;
    }
  }

  lemma {:induction false} SkipGapsOfText(ks: seq<Piece>)
    requires Bare(ks)
    ensures SkipSpace(Render(ks)) == Render(SkipGaps(ks)) && Bare(SkipGaps(ks))
    ensures forall x :: x in SkipGaps(ks) ==> x in ks
  {
    if ks == [] {
    } else {
      if ks[0].Gap? {
        assert forall x :: x in ks[1..] ==> x in ks;
        SkipSpaces(ks[0].text, Render(ks[1..]));
        SkipGapsOfText(ks[1..]);
      } else {
        PieceBegins(ks[0], Render(ks[1..]));
        hide Text, Valid;
      }
    }
  }

  lemma {:induction false} FieldOfWord(t: string, rest: string)
    requires forall i :: 0 <= i < |t| ==> IsWordChar(t[i])
    ensures FieldLength(t + rest) == |t| + FieldLength(rest)
  {
    if t == "" {
      assert t + rest == rest;
    } else {
      FieldOfWord(t[1..], rest);
      assert (t + rest)[1..] == t[1..] + rest;
    }
  }

  predicate AllTrimmed(s: string) {
    forall i :: 0 <= i < |s| ==> s[i] in "(;"
  }

  function FirstField(s: string): string {
    s[..FieldLength(s)]
  }

  lemma FieldOfDelimiter(c: char, rest: string)
    requires !IsSpace(c)
    ensures FirstField([c] + rest) == [c] + FirstField(rest)
    ensures AllTrimmed(FirstField([c] + rest)) <==> c in "(;" && AllTrimmed(FirstField(rest))
  {
    assert ([c] + rest)[1..] == rest;
    var f, g := FirstField([c] + rest), FirstField(rest);
    assert f == [c] + g;
    assert AllTrimmed(f) ==> AllTrimmed(g) by {
      assert forall i :: 0 <= i < |g| ==> g[i] == f[i + 1];
    }
  }

  lemma FieldStartsUntrimmed(s: string)
    requires s != "" && !IsSpace(s[0]) && s[0] !in "(;"
    ensures !AllTrimmed(FirstField(s))
  {
    assert FirstField(s)[0] == s[0];
  }

  lemma PieceBegins(x: Piece, rest: string)
    requires Valid(x) && !x.Block? && !x.Line?
    ensures Text(x) != "" && (Text(x) + rest)[0] == Text(x)[0] && (IsSpace(Text(x)[0]) <==> x.Gap?)
    ensures x.Punct? ==> Text(x) + rest == [x.c] + rest
    ensures !x.Punct? ==> Text(x)[0] !in "(;"
  {
    ValidTextNonempty(x);
  }

  /** The rest of the first field is trimmed away whole only if the tokens are delimiters. */
  lemma {:induction false} JunkIsDelimiters(ks: seq<Piece>)
    requires Bare(ks)
    ensures AllTrimmed(FirstField(Render(ks))) <==> Delimited(ks)
  {
    if ks == [] {
    } else {
      var x, rest := ks[0], Render(ks[1..]);
      PieceBegins(x, rest);
      if x.Punct? {
        JunkIsDelimiters(ks[1..]);
        FieldOfDelimiter(x.c, rest);
      } else if x.Gap? {
        assert FirstField(Text(x) + rest) == "";
      } else {
        FieldStartsUntrimmed(Text(x) + rest);
      }
      hide AllTrimmed, FirstField, Text;
    }
  }

  lemma {:induction false} TrimWordJunk(w: string, junk: string)
    requires forall i :: 0 <= i < |w| ==> w[i] !in "(;"
    ensures AllTrimmed(junk) ==> TrimRight(w + junk) == w
    ensures !AllTrimmed(junk) ==> |TrimRight(w + junk)| > |w| && TrimRight(w + junk) <= w + junk
    decreases |junk|
  {
    if junk == "" {
      assert w + junk == w;
    } else {
      var n := |junk| - 1;
      assert junk == junk[..n] + [junk[n]];
      assert (w + junk)[..|w| + n] == w + junk[..n];
      if junk[n] in "(;" {
        TrimWordJunk(w, junk[..n]);
      }
    }
  }

  lemma KeywordLetters(k: string)
    requires k in KEYWORDS
    ensures forall i :: 0 <= i < |k| ==> 'A' <= k[i] <= 'Z'
  {
  }

  /** A field with a character that is no ASCII letter in either case is no keyword. */
  lemma NotKeyword(f: string, i: nat)
    requires i < |f| && !('A' <= Upper(f[i]) <= 'Z')
    ensures !IsKeyword(f)
  {
    var u := UpperString(f);
    assert u[i] == Upper(f[i]);
    if u in KEYWORDS {
      KeywordLetters(u);
    }
  }

  lemma {:induction false} TrimRightPrefix(s: string)
    ensures TrimRight(s) <= s
  {
    if s == "" || s[|s| - 1] !in "(;" {
    } else {
      TrimRightPrefix(s[..|s| - 1]);
    }
  }

  lemma FieldOfWordAndJunk(w: string, rest: string)
    requires forall i :: 0 <= i < |w| ==> IsWordChar(w[i])
    ensures FirstField(w + rest) == w + FirstField(rest)
  {
    FieldOfWord(w, rest);
  }

  lemma WordFieldIsKeyword(w: string, rest: string)
    requires forall i :: 0 <= i < |w| ==> IsWordChar(w[i])
    requires rest != "" ==> !('A' <= Upper(rest[0]) <= 'Z')
    ensures IsKeyword(TrimRight(FirstField(w + rest))) <==> IsKeyword(w) && AllTrimmed(FirstField(rest))
  {
    FieldOfWordAndJunk(w, rest);
    var junk := FirstField(rest);
    TrimWordJunk(w, junk);
    if !AllTrimmed(junk) {
      NotKeyword(TrimRight(w + junk), |w|);
    }
    hide IsKeyword, AllTrimmed;
  }

  lemma OtherFieldIsNoKeyword(s: string)
    requires s != "" && !IsSpace(s[0]) && !('A' <= Upper(s[0]) <= 'Z')
    ensures !IsKeyword(TrimRight(FirstField(s)))
  {
    var f := FirstField(s);
    TrimRightPrefix(f);
    if TrimRight(f) == "" {
      EmptyIsNoKeyword();
    } else {
      NotKeyword(TrimRight(f), 0);
    }
  }

  /** The keyword test on the first field of the text is the keyword test on the first token, as
      long as only delimiters stand between the token and the next white space. */
  lemma FirstFieldIsFirstToken(ks: seq<Piece>)
    requires Bare(ks) && ks != [] && !ks[0].Gap? && PlainStart(ks)
    ensures IsKeyword(TrimRight(FirstField(Render(ks)))) <==>
            ks[0].Word? && IsKeyword(ks[0].text) && Delimited(ks[1..])
  {
    hide IsKeyword, AllTrimmed, FirstField, Delimited;
    var x, rest := ks[0], Render(ks[1..]);
    PieceBegins(x, rest);
    if x.Word? {
      if ks[1..] != [] {
        JunkBeginsPlainly(ks[1..], x);
      }
      WordFieldIsKeyword(x.text, rest);
      JunkIsDelimiters(ks[1..]);
    } else {
      PlainBegins(x);
      OtherFieldIsNoKeyword(Render(ks));
    }
  }

  lemma PlainBegins(x: Piece)
    requires Valid(x) && BarePiece(x) && PlainPiece(x) && !x.Word?
    ensures Text(x) != "" && !('A' <= Upper(Text(x)[0]) <= 'Z')
  {
    ValidTextNonempty(x);
  }

  lemma EmptyIsNoKeyword()
    ensures !IsKeyword("")
  {
  }

  lemma JunkBeginsPlainly(ks: seq<Piece>, before: Piece)
    requires Bare(ks) && ks != [] && before.Word? && EndsBefore(before, Render(ks)) && PlainPiece(ks[0])
    ensures Render(ks) != "" && !('A' <= Upper(Render(ks)[0]) <= 'Z')
  {
    var x := ks[0];
    ValidTextNonempty(x);
    assert Render(ks)[0] == Text(x)[0];
    if x.Word? {
      assert false;
    }
    PlainBegins(x);
  }

  /** The whole classifier, on tokens. */
  lemma ClassifierOnTokens(sql: string)
    requires Lex(sql).Some? && Orderly(Lex(sql).value) && PlainSpelling(Lex(sql).value)
    ensures var ps := Lex(sql).value;
            IsDdlDml(sql) ==
            if FirstToken(ps).None? then
              if StripSqlComments(sql) == "" then Is(false) else Panics
            else Is(StartsWithKeyword(ps) && FirstTokenDelimited(ps) && !MentionsReturning(ps))
  {
    var ps := Lex(sql).value;
    var us := Uncommented(ps);
    var ks := SkipGaps(us);
    LexSound(sql);
    UncommentedIsBare(ps);
    var stripped := StripSqlComments(sql);
    assert stripped == TrimLeft(Render(us));
    SkipAfterTrim(Render(us));
    SkipGapsOfText(us);
    assert SkipSpace(stripped) == Render(ks);
    ReturningMeansReturningToken(sql);
    if ks == [] {
      assert Fields(stripped) == [];
    } else {
      ValidTextNonempty(ks[0]);
      assert Fields(stripped)[0] == FirstField(Render(ks));
      FirstFieldIsFirstToken(ks);
    }
  }

  /** The routing the driver documents (first keyword in the set, no RETURNING) is what the code
      decides exactly when the first token is no keyword, is closed off by white space, `(` or `;`,
      or a RETURNING token settles the matter. */
  lemma ClassifierMeetsItsContractExactly(sql: string)
    requires Lex(sql).Some? && Orderly(Lex(sql).value) && PlainSpelling(Lex(sql).value)
    requires FirstToken(Lex(sql).value).Some?
    ensures var ps := Lex(sql).value;
            IsDdlDml(sql) == Is(StartsWithKeyword(ps) && !MentionsReturning(ps)) <==>
            !StartsWithKeyword(ps) || FirstTokenDelimited(ps) || MentionsReturning(ps)
  {
    ClassifierOnTokens(sql);
  }
}
