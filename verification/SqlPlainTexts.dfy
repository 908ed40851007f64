/**
The classifier on plain texts, said with the words themselves: which first words make a statement run at once,
and what counts as RETURNING.
*/
module SqlPlainTexts {
  import opened SqlScanner
  import opened SqlPasses
  import SqlRefinement
  import opened Execution
  import opened ExecutionOutcomes
  import W = StatementSpec

  /** The first words that mean DDL or DML. */
  function DdlDmlWords(): seq<string> {
    ["ALTER", "ATTACH", "BEGIN", "CALL", "CHECKPOINT", "COMMENT", "COMMIT", "COPY", "CREATE", "DELETE", "DETACH",
     "DROP", "EXPORT", "GRANT", "IMPORT", "INSERT", "INSTALL", "LOAD", "MERGE", "REVOKE", "ROLLBACK", "SET",
     "TRUNCATE", "UPDATE", "USE", "VACUUM"]
  }

  predicate Letter(c: char) {
    'a' <= c <= 'z' || 'A' <= c <= 'Z'
  }

  predicate AsciiWord(k: string) {
    k != "" && forall i :: 0 <= i < |k| ==> Letter(k[i])
  }

  /** The two spell the same word, `k` in any mixture of cases. */
  predicate Spells(k: string, word: string) {
    |k| == |word| && forall i :: 0 <= i < |k| ==> k[i] == word[i] || k[i] as int == word[i] as int + 32
  }

  predicate IsDdlDmlWord(k: string) {
    exists i :: 0 <= i < |DdlDmlWords()| && Spells(k, DdlDmlWords()[i])
  }

  lemma UpperSpells(k: string, word: string)
    requires AsciiWord(k) && Capital(word)
    ensures Spells(k, word) <==> UpperString(k) == word
  {
    if Spells(k, word) {
      forall i | 0 <= i < |k| ensures UpperString(k)[i] == word[i] {
        assert Letter(k[i]);
      }
    }
    if UpperString(k) == word {
      forall i | 0 <= i < |k| ensures k[i] == word[i] || k[i] as int == word[i] as int + 32 {
        assert Letter(k[i]) && UpperString(k)[i] == Upper(k[i]);
      }
    }
  }

  predicate Capital(word: string) {
    forall j :: 0 <= j < |word| ==> 'A' <= word[j] <= 'Z'
  }

  lemma WordsAreCapital()
    ensures forall i :: 0 <= i < |DdlDmlWords()| ==> Capital(DdlDmlWords()[i])
  {
  }

  lemma KeywordsListed(word: string)
    ensures IsKeyword(word) <==> UpperString(word) in DdlDmlWords()
  {
    hide UpperString;
  }

  lemma KeywordSpelled(k: string)
    requires AsciiWord(k)
    ensures IsKeyword(k) <==> IsDdlDmlWord(k)
  {
    hide IsKeyword, DdlDmlWords, UpperString, Spells, Capital;
    KeywordsListed(k);
    WordsAreCapital();
    var words := DdlDmlWords();
    forall i | 0 <= i < |words| ensures Spells(k, words[i]) <==> UpperString(k) == words[i] {
      assert Capital(words[i]);
      UpperSpells(k, words[i]);
    }
    if IsKeyword(k) {
      var i :| 0 <= i < |words| && words[i] == UpperString(k);
      assert Spells(k, DdlDmlWords()[i]);
    }
  }

  lemma WordIsCopied(p: Pattern, k: string, rest: string)
    requires AsciiWord(k) && (p.BlockComment? || p.LineComment?)
    ensures ReplaceAll(p, k + " " + rest) == k + " " + ReplaceAll(p, rest)
  {
    var t := k + " ";
    forall i | 0 <= i < |t| ensures !MayOpen(p, t[i..] + rest) {
      assert (t[i..] + rest)[0] == t[i];
      assert i < |k| ==> Letter(k[i]);
    }
    CopiesText(p, t, rest);
  }

  lemma WordIsTheField(k: string, rest: string)
    requires AsciiWord(k)
    ensures TrimLeft(k + " " + rest) == k + " " + rest
    ensures var fields := Fields(k + " " + rest); fields != [] && fields[0] == k
    ensures TrimRight(k) == k
  {
    var s := k + " " + rest;
    assert Letter(k[0]) && Letter(k[|k| - 1]);
    assert s == k + (" " + rest) && s[0] == k[0];
    forall i | 0 <= i < |k| ensures !IsSpace(k[i]) {
      assert Letter(k[i]);
    }
    SqlRefinement.FieldOfWord(k, " " + rest);
    assert FieldLength(" " + rest) == 0;
    assert s[..|k|] == k;
  }

  /** Whatever follows it, a first word decides alone: the statement is DDL or DML exactly if the word is one
      of the listed, in whatever case. */
  lemma FirstWordDecides(k: string, rest: string)
    requires AsciiWord(k)
    ensures KeywordStatement(k + " " + rest) <==> IsDdlDmlWord(k)
  {
    WordIsCopied(BlockComment, k, rest);
    WordIsCopied(LineComment, k, ReplaceAll(BlockComment, rest));
    WordIsTheField(k, ReplaceAll(LineComment, ReplaceAll(BlockComment, rest)));
    KeywordSpelled(k);
    hide IsKeyword, IsDdlDmlWord, Fields, TrimRight, TrimLeft, ReplaceAll;
  }

  /** So a statement with such a first word runs at once, with RETURNING or without, and one with any other
      first word streams unless it has RETURNING. */
  lemma FirstWordRoutes(w: W.Wrapper, k: string, rest: string)
    requires AsciiWord(k) && w.query == k + " " + rest && w.ingest.target == ""
    ensures IsDdlDmlWord(k) ==> RunsAtOnce(w)
    ensures !IsDdlDmlWord(k) ==> (RunsAtOnce(w) <==> Returns(w.query)) && (Streamed(w) <==> !Returns(w.query))
  {
    FirstWordDecides(k, rest);
    WordIsCopied(BlockComment, k, rest);
    WordIsCopied(LineComment, k, ReplaceAll(BlockComment, rest));
    WordIsTheField(k, ReplaceAll(LineComment, ReplaceAll(BlockComment, rest)));
    RouteExactly(w);
    var stripped := " " + ReplaceAll(LineComment, ReplaceAll(BlockComment, rest));
    NotAllSpace(k, stripped);
    assert StripSqlComments(w.query) == k + stripped;
    hide IsDdlDmlWord, TrimLeft, ReplaceAll, KeywordStatement, HasReturningClause, RouteOf;
  }

  lemma NotAllSpace(k: string, rest: string)
    requires AsciiWord(k)
    ensures !AllSpace(k + rest)
  {
    assert Letter(k[0]) && !IsSpace((k + rest)[0]);
  }

  /** INSERT runs at once in any case of letters; SELECT does not. */
  lemma InsertAndSelect()
    ensures IsDdlDmlWord("INSERT") && IsDdlDmlWord("insert") && !IsDdlDmlWord("SELECT") && !IsDdlDmlWord("select")
  {
    var words := DdlDmlWords();
    assert Spells("INSERT", words[15]) && Spells("insert", words[15]);
    forall i | 0 <= i < |words| ensures !Spells("SELECT", words[i]) && !Spells("select", words[i]) {
      assert |words[i]| == 6 ==> words[i][0] != 'S';
    }
  }

  // ----- RETURNING -----

  /** No quotes, and nothing that could open a comment. */
  predicate Plain(s: string) {
    forall i :: 0 <= i < |s| ==> s[i] !in "\'\"/-"
  }

  predicate InWord(c: char) {
    Letter(c) || '0' <= c <= '9' || c == '_'
  }

  /** The word at position `i`, in whatever case, with no word character on either side. */
  predicate ReturningAt(s: string, i: nat) {
    && i + 9 <= |s| && Spells(s[i..i + 9], "RETURNING")
    && (i > 0 ==> !InWord(s[i - 1])) && (i + 9 < |s| ==> !InWord(s[i + 9]))
  }

  lemma PlainIsCopied(p: Pattern, s: string)
    requires Plain(s)
    ensures ReplaceAll(p, s) == s
  {
    forall i | 0 <= i < |s| ensures !MayOpen(p, s[i..] + "") {
      assert (s[i..] + "")[0] == s[i];
    }
    CopiesText(p, s, "");
    assert s + "" == s;
  }

  lemma HereIsSpelled(s: string, i: nat)
    requires i <= |s|
    ensures ReturningHere(s[i..]) <==>
            i + 9 <= |s| && Spells(s[i..i + 9], "RETURNING") && (i + 9 < |s| ==> !IsWordChar(s[i + 9]))
  {
    if i + 9 <= |s| {
      var t, u := s[i..], s[i..i + 9];
      forall j | 0 <= j < 9
        ensures AsciiUpper(t[j]) == RETURNING[j] <==>
                u[j] == "RETURNING"[j] || u[j] as int == "RETURNING"[j] as int + 32
      {
        assert t[j] == u[j] && 'A' <= "RETURNING"[j] <= 'Z';
      }
      if ReturningHere(t) {
        assert Spells(u, "RETURNING");
      }
    }
  }

  /** In a text without quotes and comments, RETURNING is the word itself wherever it stands alone. */
  lemma PlainReturning(s: string)
    requires Plain(s)
    ensures Returns(s) <==> exists i: nat :: ReturningAt(s, i)
  {
    PlainIsCopied(BlockComment, s);
    PlainIsCopied(LineComment, s);
    PlainIsCopied(SingleQuoted, s);
    PlainIsCopied(DoubleQuoted, s);
    SqlRefinement.TrimKeepsReturning(s);
    ReturningInIsBoundarySearch(false, s);
    hide ReplaceAll, TrimLeft, ReturningIn, ReturningHere, Spells;
    if i :| 0 <= i < |s| && ReturningHere(s[i..]) && !(if i == 0 then false else IsWordChar(s[i - 1])) {
      HereIsSpelled(s, i);
      assert ReturningAt(s, i);
    }
    if i: nat :| ReturningAt(s, i) {
      HereIsSpelled(s, i);
    }
  }

  // ----- Panics -----

  const TRIMMED := " \t\n\r\U{000B}\U{000C}"

  lemma {:induction false} TrimLeftSpaces(s: string)
    ensures TrimLeft(s) != "" <==> exists i :: 0 <= i < |s| && s[i] !in TRIMMED
    ensures AllSpace(TrimLeft(s)) <==> AllSpace(s)
  {
    if s == "" {
    } else if s[0] !in TRIMMED {
      assert TrimLeft(s) == s;
    } else {
      var t := s[1..];
      TrimLeftSpaces(t);
      assert TrimLeft(s) == TrimLeft(t) && IsSpace(s[0]);
      hide TrimLeft;
      assert forall i :: 0 <= i < |t| ==> t[i] == s[i + 1];
      if i :| 0 <= i < |s| && s[i] !in TRIMMED {
        assert t[i - 1] !in TRIMMED;
      }
      if i :| 0 <= i < |s| && !IsSpace(s[i]) {
        assert !IsSpace(t[i - 1]);
      }
    }
  }

  /** A text without quotes and comments panics the classifier exactly if it is all white space, and not all of
      it the six characters that are trimmed. */
  lemma PlainPanicsExactly(s: string)
    requires Plain(s)
    ensures IsDdlDml(s).Panics? <==> AllSpace(s) && exists i :: 0 <= i < |s| && s[i] !in TRIMMED
  {
    PlainIsCopied(BlockComment, s);
    PlainIsCopied(LineComment, s);
    TrimLeftSpaces(s);
    ClassifierPanicsExactly(s);
    hide IsDdlDml, ReplaceAll, TrimLeft;
  }
}
