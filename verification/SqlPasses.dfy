/**
How each text pass of the classifier acts on tokenized text: as long as no other piece contains
what the pass looks for, it deletes or blanks exactly the pieces it is meant for.
*/
module SqlPasses {
  import opened Wrappers
  import opened SqlScanner
  import opened SqlLexer

  /** What a pass turns one piece into. */
  function Pass(p: Pattern, x: Piece): seq<Piece> {
    match p
    case BlockComment => if x.Block? then [] else [x]
    case LineComment => if x.Line? then [] else [x]
    case SingleQuoted => if x.Str? then [Str("")] else [x]
    case DoubleQuoted => if x.Ident? then [Ident("")] else [x]
  }

  function Apply(p: Pattern, ps: seq<Piece>): seq<Piece> {
    if ps == [] then [] else Pass(p, ps[0]) + Apply(p, ps[1..])
  }

  predicate HasPair(t: string, a: char, b: char) {
    exists i :: 0 <= i < |t| && Opens(t[i..], a, b)
  }

  /** The piece is the kind the pass is for, or its text never opens a match. Comments must be gone
      before quotes are blanked. */
  predicate Clear(p: Pattern, x: Piece) {
    match p
    case BlockComment => x.Str? || x.Ident? || x.Line? ==> !HasPair(Text(x), '/', '*')
    case LineComment => !x.Block? && (x.Str? || x.Ident? ==> !HasPair(Text(x), '-', '-'))
    case SingleQuoted => !x.Block? && !x.Line? && (x.Ident? ==> '\'' !in Text(x))
    case DoubleQuoted => !x.Block? && !x.Line? && (x.Str? ==> '\"' !in Text(x))
  }

  predicate AllClear(p: Pattern, ps: seq<Piece>) {
    forall i :: 0 <= i < |ps| ==> Clear(p, ps[i])
  }

  // ----- Text in which nothing matches is copied -----

  predicate MayOpen(p: Pattern, s: string) {
    match p
    case BlockComment => Opens(s, '/', '*')
    case LineComment => Opens(s, '-', '-')
    case SingleQuoted => s != "" && s[0] == '\''
    case DoubleQuoted => s != "" && s[0] == '\"'
  }

  lemma UnopenedIsCopied(p: Pattern, s: string)
    requires s != "" && !MayOpen(p, s)
    ensures ReplaceAll(p, s) == [s[0]] + ReplaceAll(p, s[1..])
  {
  }

  lemma ConsConcat(t: string, rest: string)
    requires t != ""
    ensures (t + rest)[0] == t[0] && (t + rest)[1..] == t[1..] + rest
    ensures forall r :: [t[0]] + (t[1..] + r) == t + r
  {
  }

  lemma {:induction false} CopiesText(p: Pattern, t: string, rest: string)
    requires forall i :: 0 <= i < |t| ==> !MayOpen(p, t[i..] + rest)
    ensures ReplaceAll(p, t + rest) == t + ReplaceAll(p, rest)
    decreases |t|
  {
    if t == "" {
      assert t + rest == rest;
    } else {
      assert t[0..] == t;
      ConsConcat(t, rest);
      UnopenedIsCopied(p, t + rest);
      hide MayOpen, ReplaceAll;
      forall i | 0 <= i < |t[1..]| ensures !MayOpen(p, t[1..][i..] + rest) {
        assert t[1..][i..] == t[i + 1..];
      }
      CopiesText(p, t[1..], rest);
    }
  }

  // ----- The piece a pass is for is matched whole -----

  lemma {:induction false} CloseBlockExtends(s: string, rest: string)
    requires CloseBlock(s).Some?
    ensures CloseBlock(s + rest) == CloseBlock(s)
  {
    if Opens(s, '*', '/') {
    } else {
      CloseBlockExtends(s[1..], rest);
      assert (s + rest)[1..] == s[1..] + rest;
    }
  }

  lemma {:induction false} LineLengthWhole(b: string, rest: string)
    requires forall i :: 0 <= i < |b| ==> b[i] != '\n'
    requires rest == "" || rest[0] == '\n'
    ensures LineLength(b + rest) == |b|
  {
    if b == "" {
    } else {
      LineLengthWhole(b[1..], rest);
      assert (b + rest)[1..] == b[1..] + rest;
    }
  }

  lemma DropsHead(head: string, d: string, q: char, rest: string)
    ensures var s := head + d + [q] + rest;
            s[|head|..] == d + [q] + rest && forall i :: 0 <= i < |head| ==> s[i] == head[i]
  {
  }

  /** Past the first character of a quoted body, the rest of it. */
  lemma DoubledStep(q: char, b: string, rest: string)
    requires b != ""
    ensures var s := Doubled(q, b) + [q] + rest; var step := if b[0] == q then 2 else 1;
            && s[0] == b[0] && (b[0] == q ==> Opens(s, q, q))
            && s[step..] == Doubled(q, b[1..]) + [q] + rest
            && |Doubled(q, b)| == |Doubled(q, b[1..])| + step
  {
    var head := if b[0] == q then [q, q] else [b[0]];
    DropsHead(head, Doubled(q, b[1..]), q, rest);
    assert Doubled(q, b) == head + Doubled(q, b[1..]);
    hide Doubled;
  }

  lemma {:induction false} CloseQuotedWhole(q: char, b: string, rest: string)
    requires rest == "" || rest[0] != q
    ensures CloseQuoted(q, Doubled(q, b) + [q] + rest) == Some(|Doubled(q, b)| + 1)
  {
    if b != "" {
      DoubledStep(q, b, rest);
      CloseQuotedWhole(q, b[1..], rest);
      hide Doubled;
    } else {
      assert Doubled(q, b) + [q] + rest == [q] + rest;
    }
  }

  lemma MatchesQuoted(q: char, b: string, rest: string)
    requires rest == "" || rest[0] != q
    ensures QuotedLength(q, Quoted(q, b) + rest) == Some(|Quoted(q, b)|)
  {
    CloseQuotedWhole(q, b, rest);
    assert (Quoted(q, b) + rest)[1..] == Doubled(q, b) + [q] + rest;
  }

  lemma DropsOpener(a: char, b: char, body: string, rest: string)
    ensures ([a, b] + body + rest)[2..] == body + rest
  {
  }

  /** `closing` is the body of a block comment with its closing pair. */
  lemma MatchesBlock(closing: string, rest: string)
    requires CloseBlock(closing) == Some(|closing|)
    ensures MatchLength(BlockComment, "/*" + closing + rest) == Some(|closing| + 2)
  {
    hide CloseBlock;
    CloseBlockExtends(closing, rest);
    DropsOpener('/', '*', closing, rest);
    assert "/*" + closing + rest == ['/', '*'] + closing + rest;
    OpenedBlockLength(['/', '*'] + closing + rest, |closing|);
  }

  lemma OpenedBlockLength(s: string, k: nat)
    requires Opens(s, '/', '*') && CloseBlock(s[2..]) == Some(k)
    ensures MatchLength(BlockComment, s) == Some(k + 2)
  {
  }

  lemma MatchesLine(b: string, rest: string)
    requires forall i :: 0 <= i < |b| ==> b[i] != '\n'
    requires rest == "" || rest[0] == '\n'
    ensures MatchLength(LineComment, "--" + b + rest) == Some(|b| + 2)
  {
    LineLengthWhole(b, rest);
    var s := "--" + b + rest;
    assert s[2..] == b + rest;
  }

  /** A piece that is the pass's own kind. */
  predicate Target(p: Pattern, x: Piece) {
    match p
    case BlockComment => x.Block?
    case LineComment => x.Line?
    case SingleQuoted => x.Str?
    case DoubleQuoted => x.Ident?
  }

  lemma TargetMatchedWhole(p: Pattern, x: Piece, rest: string)
    requires Target(p, x) && Valid(x) && EndsBefore(x, rest)
    ensures MatchLength(p, Text(x) + rest) == Some(|Text(x)|)
  {
    match x
    case Block(b) => MatchesBlock(b + "*/", rest);
    case Line(b) => MatchesLine(b, rest);
    case Str(b) => MatchesQuoted('\'', b, rest);
    case Ident(b) => MatchesQuoted('\"', b, rest);
    case _ =>
  }

  lemma {:induction false} QuotedLast(q: char, b: string)
    ensures Quoted(q, b)[|Quoted(q, b)| - 1] == q
  {
  }

  /** A pair is not opened anywhere in the text of a piece that has none, nor across its end. */
  lemma NoPairOpens(x: Piece, a: char, b: char, rest: string)
    requires (a == '/' && b == '*') || (a == '-' && b == '-')
    requires Valid(x) && EndsBefore(x, rest) && !x.Block? && !(a == '-' && x.Line?)
    requires x.Str? || x.Ident? || x.Line? ==> !HasPair(Text(x), a, b)
    ensures forall i :: 0 <= i < |Text(x)| ==> !Opens(Text(x)[i..] + rest, a, b)
  {
    var t := Text(x);
    forall i | 0 <= i < |t| ensures !Opens(t[i..] + rest, a, b) {
      if i + 1 < |t| {
        assert Opens(t[i..], a, b) <==> Opens(t[i..] + rest, a, b);
      } else {
        assert t[i..] == [t[i]];
        match x
        case Str(c) => QuotedLast('\'', c);
        case Ident(c) => QuotedLast('\"', c);
        case _ =>
      }
    }
  }

  lemma NothingOpens(p: Pattern, x: Piece, rest: string)
    requires Clear(p, x) && !Target(p, x) && Valid(x) && EndsBefore(x, rest)
    ensures forall i :: 0 <= i < |Text(x)| ==> !MayOpen(p, Text(x)[i..] + rest)
  {
    match p
    case BlockComment => NoPairOpens(x, '/', '*', rest);
    case LineComment => NoPairOpens(x, '-', '-', rest);
    case SingleQuoted =>
    case DoubleQuoted =>
  }

  lemma ReplacesMatch(p: Pattern, t: string, rest: string)
    requires t != "" && MatchLength(p, t + rest) == Some(|t|)
    ensures ReplaceAll(p, t + rest) == Replacement(p) + ReplaceAll(p, rest)
  {
    assert (t + rest)[|t|..] == rest;
  }

  lemma RenderOne(x: Piece)
    ensures Render([x]) == Text(x)
  {
  }

  lemma TargetBecomesReplacement(p: Pattern, x: Piece)
    requires Target(p, x)
    ensures Render(Pass(p, x)) == Replacement(p)
  {
    match p
    case BlockComment =>
    case LineComment =>
    case SingleQuoted => RenderOne(Str("")); assert Quoted('\'', "") == "''";
    case DoubleQuoted => RenderOne(Ident("")); assert Quoted('\"', "") == "\"\"";
  }

  lemma PassOnPiece(p: Pattern, x: Piece, rest: string)
    requires Clear(p, x) && Valid(x) && EndsBefore(x, rest)
    ensures ReplaceAll(p, Text(x) + rest) == Render(Pass(p, x)) + ReplaceAll(p, rest)
  {
    if Target(p, x) {
      TargetMatchedWhole(p, x, rest);
      ReplacesMatch(p, Text(x), rest);
      TargetBecomesReplacement(p, x);
    } else {
      NothingOpens(p, x, rest);
      CopiesText(p, Text(x), rest);
      RenderOne(x);
    }
  }

  lemma Associates(a: string, b: string, c: string)
    ensures a + (b + c) == a + b + c
  {
  }

  lemma {:induction false} RenderConcat(a: seq<Piece>, b: seq<Piece>)
    ensures Render(a + b) == Render(a) + Render(b)
  {
    if a == [] {
      assert a + b == b;
    } else {
      calc {
        Render(a + b);
        { assert (a + b)[1..] == a[1..] + b; }
        Text(a[0]) + Render(a[1..] + b);
        { RenderConcat(a[1..], b); }
        Text(a[0]) + (Render(a[1..]) + Render(b));
        { Associates(Text(a[0]), Render(a[1..]), Render(b)); }
        Render(a) + Render(b);
      }
    }
  }

  /** A pass over the text of a token list is the pass over the list. */
  lemma {:induction false} PassOnText(p: Pattern, ps: seq<Piece>)
    requires AllValid(ps) && Separated(ps) && AllClear(p, ps)
    ensures ReplaceAll(p, Render(ps)) == Render(Apply(p, ps))
  {
    if ps == [] {
    } else {
      PassOnPiece(p, ps[0], Render(ps[1..]));
      PassOnText(p, ps[1..]);
      RenderConcat(Pass(p, ps[0]), Apply(p, ps[1..]));
    }
  }

  // ----- What a pass leaves for the next one -----

  /** A pass that deletes keeps the other pieces as they are. */
  lemma {:induction false} ApplyDrops(p: Pattern, ps: seq<Piece>)
    requires p == BlockComment || p == LineComment
    ensures forall y :: y in Apply(p, ps) <==> y in ps && !Target(p, y)
  {
    if ps == [] {
    } else {
      ApplyDrops(p, ps[1..]);
      assert forall y :: y in ps <==> y == ps[0] || y in ps[1..];
      assert forall y :: y in Apply(p, ps) <==> y in Pass(p, ps[0]) || y in Apply(p, ps[1..]);
    }
  }

  lemma {:induction false} ApplyMembers(p: Pattern, ps: seq<Piece>)
    requires AllValid(ps)
    ensures AllValid(Apply(p, ps))
    ensures forall y :: y in Apply(p, ps) ==> exists x :: x in ps && y in Pass(p, x)
  {
    if ps == [] {
    } else {
      ApplyMembers(p, ps[1..]);
      assert forall x :: x in ps[1..] ==> x in ps;
      assert ps[0] in ps;
    }
  }

  lemma ValidTextNonempty(x: Piece)
    requires Valid(x)
    ensures Text(x) != ""
  {
  }

  lemma PassOnHead(p: Pattern, ps: seq<Piece>)
    requires ps != [] && Valid(ps[0]) && p != BlockComment && !(p == LineComment && ps[0].Line?)
    ensures Render(Apply(p, ps)) != "" && Render(Apply(p, ps))[0] == Render(ps)[0]
  {
    var y := ps[0];
    RenderConcat(Pass(p, y), Apply(p, ps[1..]));
    ValidTextNonempty(y);
    var z := Pass(p, y)[0];
    assert Pass(p, y) == [z];
    ValidTextNonempty(z);
    assert Render([z]) == Text(z);
  }

  /** The text of a token list after a pass that deletes no block comment begins as before, unless a
      line comment went: then it begins with the line break, or is over. */
  lemma PassedTextBegins(p: Pattern, ps: seq<Piece>)
    requires p != BlockComment && AllValid(ps) && Separated(ps) && ps != []
    ensures var after := Render(Apply(p, ps));
            after == "" || after[0] == Render(ps)[0] || after[0] == '\n'
  {
    if p == LineComment && ps[0].Line? {
      var tail := ps[1..];
      assert Apply(p, ps) == Apply(p, tail);
      if tail != [] {
        ValidTextNonempty(tail[0]);
        assert !tail[0].Line?;
        PassOnHead(p, tail);
      }
    } else {
      PassOnHead(p, ps);
    }
  }

  lemma StillEnds(p: Pattern, x: Piece, ps: seq<Piece>)
    requires p != BlockComment && AllValid(ps) && Separated(ps) && EndsBefore(x, Render(ps))
    ensures EndsBefore(x, Render(Apply(p, ps)))
  {
    if ps != [] {
      ValidTextNonempty(ps[0]);
      PassedTextBegins(p, ps);
    }
  }

  lemma {:induction false} ApplySeparated(p: Pattern, ps: seq<Piece>)
    requires p != BlockComment && AllValid(ps) && Separated(ps)
    ensures Separated(Apply(p, ps))
  {
    if ps == [] {
    } else {
      ApplySeparated(p, ps[1..]);
      var qs := Pass(p, ps[0]);
      if qs == [] {
        assert qs + Apply(p, ps[1..]) == Apply(p, ps[1..]);
      } else {
        StillEnds(p, ps[0], ps[1..]);
        assert (qs + Apply(p, ps[1..]))[1..] == Apply(p, ps[1..]);
      }
    }
  }
}
