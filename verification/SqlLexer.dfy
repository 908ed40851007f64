/**
A one-pass tokenizer for SQL text, written without reference to the multi-pass classifier: it reads
each literal, quoted identifier and comment to its end before looking at anything else. It is the
reference that go/gizmosql/sqlrouting.go is held against.
*/
module SqlLexer {
  import opened Wrappers
  import opened SqlScanner

  datatype Piece =
    | Gap(text: string)
    | Word(text: string)
    | Punct(c: char)
    | Str(body: string)
    | Ident(body: string)
    | Block(body: string)
    | Line(body: string)

  // ----- Writing pieces back as text -----

  /** Every quote of `body` written twice. */
  function Doubled(q: char, body: string): string {
    if body == "" then "" else (if body[0] == q then [q, q] else [body[0]]) + Doubled(q, body[1..])
  }

  function Quoted(q: char, body: string): string {
    [q] + (Doubled(q, body) + [q])
  }

  function Text(x: Piece): (t: string)
    ensures x.Str? ==> t != "" && t[0] == '\''
    ensures x.Ident? ==> t != "" && t[0] == '\"'
  {
    match x
    case Gap(t) => t
    case Word(t) => t
    case Punct(c) => [c]
    case Str(b) => Quoted('\'', b)
    case Ident(b) => Quoted('\"', b)
    case Block(b) => "/*" + (b + "*/")
    case Line(b) => "--" + b
  }

  function Render(ps: seq<Piece>): string {
    if ps == [] then "" else Text(ps[0]) + Render(ps[1..])
  }

  // ----- Reading text into pieces -----

  function SpaceRun(s: string): (n: nat)
    ensures n <= |s| && forall i :: 0 <= i < n ==> IsSpace(s[i])
  {
    if s == "" || !IsSpace(s[0]) then 0 else 1 + SpaceRun(s[1..])
  }

  function WordRun(s: string): (n: nat)
    ensures n <= |s| && forall i :: 0 <= i < n ==> IsWordChar(s[i])
    ensures n < |s| ==> !IsWordChar(s[n])
  {
    if s == "" || !IsWordChar(s[0]) then 0 else 1 + WordRun(s[1..])
  }

  datatype Body = Body(text: string, taken: nat)

  /** The body of a quoted item and the characters it and its closing quote take. A doubled quote is
      always an escape; without a closing quote there is no item. */
  function ReadQuoted(q: char, s: string): (r: Option<Body>)
    ensures r.Some? ==> 1 <= r.value.taken <= |s|
    decreases |s|
  {
    if s == "" then None
    else if s[0] == q && !Opens(s, q, q) then Some(Body("", 1))
    else
      var step := if s[0] == q then 2 else 1;
      match ReadQuoted(q, s[step..])
      case None => None
      case Some(b) => Some(Body([s[0]] + b.text, b.taken + step))
  }

  datatype Token = Token(piece: Piece, taken: nat)

  function ReadQuotedPiece(q: char, s: string): (r: Option<Token>)
    requires s != "" && s[0] == q
    ensures r.Some? ==> 1 <= r.value.taken <= |s|
  {
    match ReadQuoted(q, s[1..])
    case None => None
    case Some(b) => Some(Token(if q == '\'' then Str(b.text) else Ident(b.text), b.taken + 1))
  }

  function ReadPiece(s: string): (r: Option<Token>)
    requires s != ""
    ensures r.Some? ==> 1 <= r.value.taken <= |s|
  {
    if IsSpace(s[0]) then Some(Token(Gap(s[..SpaceRun(s)]), SpaceRun(s)))
    else if IsWordChar(s[0]) then Some(Token(Word(s[..WordRun(s)]), WordRun(s)))
    else if s[0] == '\'' || s[0] == '\"' then ReadQuotedPiece(s[0], s)
    else if Opens(s, '/', '*') then
      match CloseBlock(s[2..])
      case None => None
      case Some(k) => Some(Token(Block(s[2..k]), k + 2))
    else if Opens(s, '-', '-') then
      var n := LineLength(s[2..]) + 2;
      Some(Token(Line(s[2..n]), n))
    else Some(Token(Punct(s[0]), 1))
  }

  /** The pieces of the whole text, unless a literal, a quoted identifier or a block comment is left
      open at its end. */
  function Lex(s: string): Option<seq<Piece>>
    decreases |s|
  {
    if s == "" then Some([])
    else match ReadPiece(s)
      case None => None
      case Some(t) =>
        match Lex(s[t.taken..])
        case None => None
        case Some(rest) => Some([t.piece] + rest)
  }

  // ----- What the tokenizer guarantees -----

  /** A piece the tokenizer can produce. */
  predicate Valid(x: Piece) {
    match x
    case Gap(t) => t != "" && forall i :: 0 <= i < |t| ==> IsSpace(t[i])
    case Word(t) => t != "" && forall i :: 0 <= i < |t| ==> IsWordChar(t[i])
    case Punct(c) => !IsSpace(c) && !IsWordChar(c) && c != '\'' && c != '\"'
    case Str(_) => true
    case Ident(_) => true
    case Block(b) => CloseBlock(b + "*/") == Some(|b| + 2)
    case Line(b) => forall i :: 0 <= i < |b| ==> b[i] != '\n'
  }

  /** What follows a piece in the text neither extends it nor forms something else with its end. */
  predicate EndsBefore(x: Piece, rest: string) {
    rest == "" ||
    match x
    case Gap(_) => true
    case Word(_) => !IsWordChar(rest[0])
    case Punct(c) => !(c == '/' && rest[0] == '*') && !(c == '-' && rest[0] == '-')
    case Str(_) => rest[0] != '\''
    case Ident(_) => rest[0] != '\"'
    case Block(_) => true
    case Line(_) => rest[0] == '\n'
  }

  predicate AllValid(ps: seq<Piece>) {
    forall i :: 0 <= i < |ps| ==> Valid(ps[i])
  }

  /** Every piece of the list ends where the next begins. */
  predicate Separated(ps: seq<Piece>) {
    ps == [] || (EndsBefore(ps[0], Render(ps[1..])) && Separated(ps[1..]))
  }

  /** A body one character longer, written out. */
  lemma DoubledCons(q: char, s: string, step: nat, taken: nat, text: string)
    requires s != "" && step == (if s[0] == q then 2 else 1) && (s[0] == q ==> Opens(s, q, q))
    requires step + taken <= |s| && s[step..][..taken] == Doubled(q, text) + [q]
    ensures s[..step + taken] == Doubled(q, [s[0]] + text) + [q]
  {
    assert ([s[0]] + text)[1..] == text;
    var head := if s[0] == q then [q, q] else [s[0]];
    assert s[..step] == head;
    assert s[..step + taken] == s[..step] + s[step..][..taken];
  }

  lemma {:induction false} ReadQuotedIsDoubled(q: char, s: string)
    requires ReadQuoted(q, s).Some?
    ensures var b := ReadQuoted(q, s).value;
            s[..b.taken] == Doubled(q, b.text) + [q] && (b.taken < |s| ==> s[b.taken] != q)
    decreases |s|
  {
    if s[0] == q && !Opens(s, q, q) {
      assert s[..1] == [q];
    } else {
      var step := if s[0] == q then 2 else 1;
      ReadQuotedIsDoubled(q, s[step..]);
      var b := ReadQuoted(q, s[step..]).value;
      DoubledCons(q, s, step, b.taken, b.text);
      hide Doubled;
    }
  }

  lemma CloseBlockPrefix(s: string)
    requires CloseBlock(s).Some?
    ensures CloseBlock(s[..CloseBlock(s).value]) == CloseBlock(s)
    ensures Opens(s[CloseBlock(s).value - 2..], '*', '/')
  {
    var k := CloseBlock(s).value;
    if Opens(s, '*', '/') {
      assert k == 2 && s[..2] == ['*', '/'] && s[0..] == s;
    } else {
      CloseBlockPrefix(s[1..]);
      assert s[..k][1..] == s[1..][..k - 1];
      assert s[1..][k - 3..] == s[k - 2..];
    }
  }

  /** The piece read is well formed, is the text it took, and ends there. */
  predicate Sound(t: Token, s: string) {
    t.taken <= |s| && Valid(t.piece) && Text(t.piece) == s[..t.taken] && EndsBefore(t.piece, s[t.taken..])
  }

  lemma ReadQuotedPieceSound(q: char, s: string)
    requires q == '\'' || q == '\"'
    requires s != "" && s[0] == q && ReadQuotedPiece(q, s).Some?
    ensures Sound(ReadQuotedPiece(q, s).value, s)
  {
    ReadQuotedIsDoubled(q, s[1..]);
    var t := ReadQuotedPiece(q, s).value;
    assert s[..t.taken] == [q] + s[1..][..t.taken - 1];
    assert Text(t.piece) == Quoted(q, ReadQuoted(q, s[1..]).value.text);
    hide ReadQuoted, Doubled;
  }

  /** Cutting a text after its first two characters. */
  lemma CutOpener(s: string, k: nat)
    requires 2 <= |s| && k + 2 <= |s|
    ensures s[2..][..k] == s[2..k + 2] && s[..k + 2] == [s[0], s[1]] + s[2..k + 2]
  {
  }

  lemma SplitPair(t: string, k: nat, a: char, b: char)
    requires 2 <= k <= |t| && Opens(t[k - 2..], a, b)
    ensures t[..k] == t[..k - 2] + [a, b]
  {
    assert t[k - 2..][0] == t[k - 2] && t[k - 2..][1] == t[k - 1];
  }

  lemma ReadBlockSound(s: string, k: nat)
    requires Opens(s, '/', '*') && CloseBlock(s[2..]) == Some(k)
    ensures Sound(Token(Block(s[2..k]), k + 2), s)
  {
    var t := s[2..];
    CloseBlockPrefix(t);
    SplitPair(t, k, '*', '/');
    CutOpener(s, k);
    hide CloseBlock;
    var b := s[2..k];
    assert b == t[..k - 2];
    assert b + "*/" == t[..k];
    assert "/*" + t[..k] == s[..k + 2];
  }

  lemma ReadLineSound(s: string)
    requires Opens(s, '-', '-')
    ensures var n := LineLength(s[2..]) + 2; Sound(Token(Line(s[2..n]), n), s)
  {
    var t := s[2..];
    LineLengthLongest(t);
    var k := LineLength(t);
    CutOpener(s, k);
    assert forall i :: 0 <= i < k ==> s[2..k + 2][i] == t[i];
    assert k < |t| ==> s[k + 2..][0] == t[k];
    assert "--" + s[2..k + 2] == s[..k + 2];
    hide LineLength;
  }

  lemma ReadPieceSound(s: string)
    requires s != "" && ReadPiece(s).Some?
    ensures Sound(ReadPiece(s).value, s)
  {
    if IsSpace(s[0]) || IsWordChar(s[0]) {
    } else if s[0] == '\'' || s[0] == '\"' {
      ReadQuotedPieceSound(s[0], s);
      hide Sound;
    } else if Opens(s, '/', '*') {
      ReadBlockSound(s, CloseBlock(s[2..]).value);
      hide Sound, CloseBlock;
    } else if Opens(s, '-', '-') {
      ReadLineSound(s);
      hide Sound, LineLength;
    } else {
      assert s[..1] == [s[0]];
    }
  }

  /** Tokenizing loses nothing: the pieces write back the text, each is well formed, and each ends
      where the next begins. */
  lemma {:induction false} LexSound(s: string)
    requires Lex(s).Some?
    ensures Render(Lex(s).value) == s && AllValid(Lex(s).value) && Separated(Lex(s).value)
    decreases |s|
  {
    hide Text, Valid, EndsBefore, ReadPiece;
    if s == "" {
    } else {
      ReadPieceSound(s);
      var t := ReadPiece(s).value;
      LexSound(s[t.taken..]);
      SoundCons(t, s, Lex(s[t.taken..]).value);
    }
  }

  lemma SoundCons(t: Token, s: string, rest: seq<Piece>)
    requires Sound(t, s) && Render(rest) == s[t.taken..] && AllValid(rest) && Separated(rest)
    ensures var ps := [t.piece] + rest; Render(ps) == s && AllValid(ps) && Separated(ps)
  {
    hide Text, Valid, EndsBefore;
    var ps := [t.piece] + rest;
    assert ps[1..] == rest;
    assert s == s[..t.taken] + s[t.taken..];
  }
}
