/**
The quoting code of go/gizmosql/geoingest.go against the tokenizer: a quoted name or literal is one
token wherever it is written, whatever it contains, and the qualified target reads back as the parts
it was built from.
*/
module Quoting {
  import opened Wrappers
  import opened SqlScanner
  import opened SqlLexer
  import opened SqlPasses
  import opened SqlLimits

  function QuoteIdent(name: string): string {
    Quoted('\"', name)
  }

  function QuoteLiteral(s: string): string {
    Quoted('\'', s)
  }

  // ----- One token, in any surroundings -----

  lemma {:induction false} LexGapsApart(s: string)
    requires Lex(s).Some?
    ensures GapsApart(Lex(s).value)
    decreases |s|
  {
    if s == "" {
    } else {
      var t := ReadPiece(s).value;
      var rest := s[t.taken..];
      LexGapsApart(rest);
      var ps := Lex(s).value;
      assert ps[1..] == Lex(rest).value;
      if t.piece.Gap? && rest != "" {
        SpaceRunStops(s);
      }
      forall i | 0 <= i < |ps| - 1 ensures !(ps[i].Gap? && ps[i + 1].Gap?) {
        if i > 0 {
          assert ps[i] == ps[1..][i - 1] && ps[i + 1] == ps[1..][i];
        }
      }
    }
  }

  lemma {:induction false} SpaceRunStops(s: string)
    ensures SpaceRun(s) < |s| ==> !IsSpace(s[SpaceRun(s)])
  {
    if s == "" || !IsSpace(s[0]) {
    } else {
      SpaceRunStops(s[1..]);
    }
  }

  /** What follows the text of a nonempty list does not change how that text begins. */
  lemma SameBeginning(x: Piece, a: seq<Piece>, b: seq<Piece>)
    requires a != [] && AllValid(a) && EndsBefore(x, Render(a))
    ensures EndsBefore(x, Render(a + b))
  {
    RenderConcat(a, b);
    ValidTextNonempty(a[0]);
    assert |Render(a)| > 0;
    assert Render(a + b)[0] == Render(a)[0];
  }

  lemma {:induction false} SeparatedConcat(a: seq<Piece>, b: seq<Piece>)
    requires AllValid(a) && Separated(a) && Separated(b)
    requires a != [] ==> EndsBefore(a[|a| - 1], Render(b))
    ensures Separated(a + b)
  {
    hide Text, EndsBefore, Valid;
    if a == [] {
      assert a + b == b;
    } else if |a| == 1 {
      assert (a + b)[1..] == b;
    } else {
      SeparatedConcat(a[1..], b);
      SameBeginning(a[0], a[1..], b);
      assert (a + b)[1..] == a[1..] + b;
    }
  }

  /** The text ends where a quoted item may begin: not inside a line comment, and not right after an
      item in the same quotes. */
  predicate OpenFor(ps: seq<Piece>, x: Piece) {
    ps == [] || EndsBefore(ps[|ps| - 1], Text(x))
  }

  lemma GapsApartAround(a: seq<Piece>, x: Piece, b: seq<Piece>)
    requires GapsApart(a) && !x.Gap? && GapsApart(b)
    ensures GapsApart(a + ([x] + b))
  {
    var c := a + ([x] + b);
    forall i | 0 <= i < |c| - 1 ensures !(c[i].Gap? && c[i + 1].Gap?) {
      if i > |a| {
        assert c[i] == b[i - |a| - 1] && c[i + 1] == b[i - |a|];
      }
    }
  }

  lemma QuotedItemIsOneToken(x: Piece, prefix: string, suffix: string)
    requires x.Str? || x.Ident?
    requires Lex(prefix).Some? && Lex(suffix).Some?
    requires OpenFor(Lex(prefix).value, x) && EndsBefore(x, suffix)
    ensures Lex(prefix + (Text(x) + suffix)) == Some(Lex(prefix).value + ([x] + Lex(suffix).value))
  {
    var a, b := Lex(prefix).value, Lex(suffix).value;
    LexSound(prefix);
    LexSound(suffix);
    LexGapsApart(prefix);
    LexGapsApart(suffix);
    var c := [x] + b;
    assert c[1..] == b;
    assert Render(c) == Text(x) + suffix && Separated(c);
    if a != [] {
      EndStaysOpen(a[|a| - 1], x, suffix);
    }
    hide Text, EndsBefore, Valid;
    SeparatedConcat(a, c);
    RenderConcat(a, c);
    GapsApartAround(a, x, b);
    LexComplete(a + c);
  }

  lemma EndStaysOpen(last: Piece, x: Piece, suffix: string)
    requires Valid(x) && EndsBefore(last, Text(x))
    ensures EndsBefore(last, Text(x) + suffix)
  {
    ValidTextNonempty(x);
    assert (Text(x) + suffix)[0] == Text(x)[0];
  }

  /** A quoted name adds exactly one identifier token to a statement, whatever the name contains. */
  lemma QuotedNameIsOneToken(name: string, prefix: string, suffix: string)
    requires Lex(prefix).Some? && Lex(suffix).Some?
    requires OpenFor(Lex(prefix).value, Ident(name))
    requires suffix == "" || suffix[0] != '\"'
    ensures Lex(prefix + (QuoteIdent(name) + suffix)) ==
            Some(Lex(prefix).value + ([Ident(name)] + Lex(suffix).value))
  {
    QuotedItemIsOneToken(Ident(name), prefix, suffix);
  }

  lemma QuotedLiteralIsOneToken(s: string, prefix: string, suffix: string)
    requires Lex(prefix).Some? && Lex(suffix).Some?
    requires OpenFor(Lex(prefix).value, Str(s))
    requires suffix == "" || suffix[0] != '\''
    ensures Lex(prefix + (QuoteLiteral(s) + suffix)) ==
            Some(Lex(prefix).value + ([Str(s)] + Lex(suffix).value))
  {
    QuotedItemIsOneToken(Str(s), prefix, suffix);
  }

  /** The quote passes of the classifier blank a quoted item whole and nothing after it. */
  lemma QuotedItemIsOneMatch(s: string, rest: string)
    ensures rest == "" || rest[0] != '\'' ==>
              MatchLength(SingleQuoted, QuoteLiteral(s) + rest) == Some(|QuoteLiteral(s)|)
    ensures rest == "" || rest[0] != '\"' ==> MatchLength(DoubleQuoted, QuoteIdent(s) + rest) == Some(|QuoteIdent(s)|)
  {
    if rest == "" || rest[0] != '\'' {
      MatchesQuoted('\'', s, rest);
    }
    if rest == "" || rest[0] != '\"' {
      MatchesQuoted('\"', s, rest);
    }
  }

  // ----- Qualified targets -----

  /** `strings.Join` of the quoted parts with dots. */
  function JoinQuoted(parts: seq<string>): string {
    if |parts| == 0 then ""
    else if |parts| == 1 then QuoteIdent(parts[0])
    else QuoteIdent(parts[0]) + ("." + JoinQuoted(parts[1..]))
  }

  /** Reads quoted names separated by dots up to the end of the text. */
  function ReadParts(s: string): Option<seq<string>>
    decreases |s|
  {
    if s == "" || s[0] != '\"' then None
    else match ReadQuoted('\"', s[1..])
      case None => None
      case Some(b) =>
        var rest := s[1 + b.taken..];
        if rest == "" then Some([b.text])
        else if rest[0] != '.' then None
        else match ReadParts(rest[1..])
          case None => None
          case Some(more) => Some([b.text] + more)
  }

  lemma ReadsOneName(name: string, rest: string)
    requires rest == "" || rest[0] != '\"'
    ensures var s := QuoteIdent(name) + rest;
            && s != "" && s[0] == '\"'
            && ReadQuoted('\"', s[1..]) == Some(Body(name, |QuoteIdent(name)| - 1))
            && s[|QuoteIdent(name)|..] == rest
  {
    ReadQuotedWhole('\"', name, rest);
    assert (QuoteIdent(name) + rest)[1..] == Doubled('\"', name) + ['\"'] + rest;
  }

  lemma {:induction false} TargetReadsBack(parts: seq<string>)
    requires parts != []
    ensures ReadParts(JoinQuoted(parts)) == Some(parts)
  {
    hide QuoteIdent, Quoted, Doubled, ReadQuoted;
    var name := parts[0];
    if |parts| == 1 {
      ReadsOneName(name, "");
      assert QuoteIdent(name) + "" == QuoteIdent(name);
      assert parts == [name];
    } else {
      var more := JoinQuoted(parts[1..]);
      var rest := "." + more;
      ReadsOneName(name, rest);
      TargetReadsBack(parts[1..]);
      assert rest[0] == '.' && rest[1..] == more;
      assert parts == [name] + parts[1..];
    }
  }

  /** Different part lists never give the same reference. */
  lemma TargetIsInjective(a: seq<string>, b: seq<string>)
    requires a != [] && b != [] && JoinQuoted(a) == JoinQuoted(b)
    ensures a == b
  {
    TargetReadsBack(a);
    TargetReadsBack(b);
  }

  /** The ingest options that name the target. */
  datatype Target = Target(table: string, catalog: string, dbSchema: string, temporary: bool)

  /** Temporary targets are never qualified; otherwise the catalog and schema that are set come
      first. */
  function TargetParts(t: Target): (parts: seq<string>)
    ensures parts != [] && parts[|parts| - 1] == t.table
  {
    if t.temporary then [t.table]
    else
      (if t.catalog != "" then [t.catalog] else []) + (if t.dbSchema != "" then [t.dbSchema] else []) + [t.table]
  }

  /** The reference as a text: catalog, schema, table, in that order, as far as they are set. */
  lemma TargetText(t: Target)
    ensures var table := QuoteIdent(t.table); var ref := JoinQuoted(TargetParts(t));
            if t.temporary || (t.catalog == "" && t.dbSchema == "") then ref == table
            else if t.catalog == "" then ref == QuoteIdent(t.dbSchema) + ("." + table)
            else if t.dbSchema == "" then ref == QuoteIdent(t.catalog) + ("." + table)
            else ref == QuoteIdent(t.catalog) + ("." + (QuoteIdent(t.dbSchema) + ("." + table)))
  {
    hide QuoteIdent;
    var parts := TargetParts(t);
    if |parts| == 1 {
    } else if |parts| == 2 {
      assert parts[1..] == [t.table];
    } else {
      assert parts == [t.catalog, t.dbSchema, t.table];
      assert parts[1..] == [t.dbSchema, t.table] && [t.dbSchema, t.table][1..] == [t.table];
      assert JoinQuoted(parts[1..]) == QuoteIdent(t.dbSchema) + ("." + JoinQuoted([t.table]));
    }
  }

  /** Two targets that are not temporary give one reference exactly if they are the same, or if one has as its
      only catalog what the other has as its only schema. */
  lemma SameReferenceExactly(a: Target, b: Target)
    requires !a.temporary && !b.temporary
    ensures JoinQuoted(TargetParts(a)) == JoinQuoted(TargetParts(b)) <==>
            a.table == b.table &&
            (|| a == b
             || (a.catalog == b.dbSchema && a.dbSchema == "" == b.catalog)
             || (b.catalog == a.dbSchema && b.dbSchema == "" == a.catalog))
  {
    hide QuoteIdent;
    var p, q := TargetParts(a), TargetParts(b);
    if JoinQuoted(p) == JoinQuoted(q) {
      TargetIsInjective(p, q);
      assert p[|p| - 1] == q[|q| - 1];
      assert p[0] == q[0] && |p| == |q| && (|p| == 3 ==> p[1] == q[1]);
    }
  }

  method QualifiedTarget(t: Target) returns (ref: string)
    ensures ref == JoinQuoted(TargetParts(t)) && ReadParts(ref) == Some(TargetParts(t))
    ensures if t.temporary || (t.catalog == "" && t.dbSchema == "") then ref == QuoteIdent(t.table)
            else ref == (if t.catalog == "" then "" else QuoteIdent(t.catalog) + ".") +
                        ((if t.dbSchema == "" then "" else QuoteIdent(t.dbSchema) + ".") + QuoteIdent(t.table))
  {
    TargetText(t);
    hide QuoteIdent, ReadParts;
    if t.temporary {
      TargetReadsBack([t.table]);
      assert JoinQuoted([t.table]) == QuoteIdent(t.table);
      return QuoteIdent(t.table);
    }
    var parts: seq<string> := [];
    if t.catalog != "" {
      parts := parts + [t.catalog];
    }
    if t.dbSchema != "" {
      parts := parts + [t.dbSchema];
    }
    parts := parts + [t.table];
    assert parts == TargetParts(t);
    TargetReadsBack(parts);
    ref := JoinQuoted(parts);
  }
}
