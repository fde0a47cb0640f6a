/** The part of PostgreSQL's lexical structure that CREATE INDEX statements use (section 4.1.1 of the
    PostgreSQL documentation): words folded to lower case, quoted identifiers, numbers, symbols. */
module SqlLexer {
  import opened Text

  datatype Token = Word(text: string) | Quoted(name: string) | Number(n: nat) | Symbol(c: char)

  predicate IsStart(c: char) { 'a' <= c <= 'z' || 'A' <= c <= 'Z' || c == '_' || c as int >= 128 }

  predicate IsContinue(c: char) { IsStart(c) || IsDigit(c) || c == '$' }

  predicate IsSymbol(c: char) { c == '(' || c == ')' || c == ',' || c == '=' || c == '.' }

  function LowerChar(c: char): char {
    if 'A' <= c <= 'Z' then (c as int - 'A' as int + 'a' as int) as char else c
  }

  function Lower(s: string): (r: string)
    ensures |r| == |s| && forall i :: 0 <= i < |s| ==> r[i] == LowerChar(s[i])
  {
    seq(|s|, i requires 0 <= i < |s| => LowerChar(s[i]))
  }

  predicate IsWord(s: string) { s != "" && IsStart(s[0]) && forall c <- s :: IsContinue(c) }

  /** A word that folding does not change. */
  predicate IsLowerWord(s: string) { IsWord(s) && Lower(s) == s }

  /** Length of the longest prefix of word characters, and of digits. */
  function WordLength(s: string): (n: nat)
    ensures n <= |s| && forall i :: 0 <= i < n ==> IsContinue(s[i])
  {
    if s != "" && IsContinue(s[0]) then 1 + WordLength(s[1..]) else 0
  }

  function DigitsLength(s: string): (n: nat)
    ensures n <= |s| && forall i :: 0 <= i < n ==> IsDigit(s[i])
  {
    if s != "" && IsDigit(s[0]) then 1 + DigitsLength(s[1..]) else 0
  }

  /** After an opening quote: the identifier up to its closing quote, and what follows it. Two quotes in
      a row stand for one. */
  function ScanQuoted(s: string): (r: Option<(string, string)>)
    ensures r.Some? ==> |r.value.1| < |s|
  {
    if s == "" then None
    else if s[0] == '"' && |s| > 1 && s[1] == '"' then
      match ScanQuoted(s[2..])
      case None => None
      case Some(r) => Some(("\"" + r.0, r.1))
    else if s[0] == '"' then Some(("", s[1..]))
    else
      match ScanQuoted(s[1..])
      case None => None
      case Some(r) => Some(([s[0]] + r.0, r.1))
  }

  function Prepend(t: Token, rest: Option<seq<Token>>): Option<seq<Token>> {
    if rest.Some? then Some([t] + rest.value) else None
  }

  /** The tokens of a text, or None. A quoted identifier must not be empty. */
  function Lex(s: string): Option<seq<Token>>
    decreases |s|
  {
    if s == "" then Some([])
    else if s[0] == ' ' then Lex(s[1..])
    else if s[0] == '"' then
      var q := ScanQuoted(s[1..]);
      if q.None? || q.value.0 == "" then None else Prepend(Quoted(q.value.0), Lex(q.value.1))
    else if IsStart(s[0]) then
      var n := WordLength(s);
      Prepend(Word(Lower(s[..n])), Lex(s[n..]))
    else if IsDigit(s[0]) then
      var n := DigitsLength(s);
      Prepend(Number(Value(s[..n])), Lex(s[n..]))
    else if IsSymbol(s[0]) then Prepend(Symbol(s[0]), Lex(s[1..]))
    else None
  }

  // ----- Printing

  /** quoteIdent: every quote doubled, between quotes. */
  function Doubled(s: string): string {
    if s == "" then "" else (if s[0] == '"' then "\"\"" else [s[0]]) + Doubled(s[1..])
  }

  function QuoteIdent(s: string): string { "\"" + Doubled(s) + "\"" }

  /** Scanning a quoted identifier stops at its own closing quote, whatever text follows that does not
      begin with a quote. */
  lemma {:induction false} QuoteScans(s: string, rest: string)
    requires rest == "" || rest[0] != '"'
    ensures ScanQuoted(Doubled(s) + "\"" + rest) == Some((s, rest))
  {
    var t := Doubled(s) + "\"" + rest;
    if s == "" {
      assert t == "\"" + rest && t[1..] == rest;
    } else {
      QuoteScans(s[1..], rest);
      var u := Doubled(s[1..]) + "\"" + rest;
      if s[0] == '"' {
        assert t == "\"\"" + u && t[2..] == u;
      } else {
        assert t == [s[0]] + u && t[1..] == u;
      }
      assert [s[0]] + s[1..] == s;
    }
  }

  /** A token with the text that prints it and whether a space follows. */
  datatype Piece = Piece(text: string, token: Token, space: bool)

  predicate IsPiece(p: Piece) {
    match p.token
    case Word(w) => IsWord(p.text) && w == Lower(p.text)
    case Quoted(name) => name != "" && p.text == QuoteIdent(name)
    case Number(n) => p.text == Decimal(n)
    case Symbol(c) => IsSymbol(c) && p.text == [c]
  }

  function Print(ps: seq<Piece>): string {
    if ps == [] then "" else ps[0].text + (if ps[0].space then " " else "") + Print(ps[1..])
  }

  function Tokens(ps: seq<Piece>): (r: seq<Token>)
    ensures |r| == |ps| && forall i :: 0 <= i < |ps| ==> r[i] == ps[i].token
  {
    seq(|ps|, i requires 0 <= i < |ps| => ps[i].token)
  }

  /** Neighbours that would run together are kept apart by a space. */
  predicate Spaced(ps: seq<Piece>) {
    forall i :: 0 <= i < |ps| - 1 ==> ps[i].space || ps[i].token.Symbol? || ps[i + 1].token.Symbol?
  }

  lemma {:induction false} PrintAppend(a: seq<Piece>, b: seq<Piece>)
    ensures Print(a + b) == Print(a) + Print(b)
  {
    if a == [] {
      assert a + b == b;
    } else {
      PrintAppend(a[1..], b);
      assert (a + b)[1..] == a[1..] + b;
      Assoc(a[0].text + if a[0].space then " " else "", Print(a[1..]), Print(b));
    }
  }

  lemma {:induction false} WordEnds(w: string, rest: string)
    requires forall c <- w :: IsContinue(c)
    requires rest == "" || !IsContinue(rest[0])
    ensures WordLength(w + rest) == |w|
  {
    if w != "" {
      WordEnds(w[1..], rest);
      assert (w + rest)[1..] == w[1..] + rest;
    } else {
      assert w + rest == rest;
    }
  }

  lemma {:induction false} DigitsEnd(d: string, rest: string)
    requires AllDigits(d)
    requires rest == "" || !IsDigit(rest[0])
    ensures DigitsLength(d + rest) == |d|
  {
    if d != "" {
      DigitsEnd(d[1..], rest);
      assert (d + rest)[1..] == d[1..] + rest;
    } else {
      assert d + rest == rest;
    }
  }

  /** What may follow a token that is not a symbol without continuing it. */
  predicate Separates(rest: string) { rest == "" || rest[0] == ' ' || IsSymbol(rest[0]) }

  lemma LexWord(w: string, rest: string)
    requires IsWord(w) && Separates(rest)
    ensures Lex(w + rest) == Prepend(Word(Lower(w)), Lex(rest))
  {
    var s := w + rest;
    WordEnds(w, rest);
    assert s[..|w|] == w && s[|w|..] == rest;
    assert s[0] == w[0];
  }

  lemma LexQuoted(name: string, rest: string)
    requires name != "" && Separates(rest)
    ensures Lex(QuoteIdent(name) + rest) == Prepend(Quoted(name), Lex(rest))
  {
    var s, t := QuoteIdent(name) + rest, Doubled(name) + "\"" + rest;
    QuoteScans(name, rest);
    Assoc("\"", Doubled(name), "\"");
    Assoc("\"", Doubled(name) + "\"", rest);
    assert s == "\"" + t && s[1..] == t && s[0] == '"';
  }

  lemma LexNumber(n: nat, rest: string)
    requires Separates(rest)
    ensures Lex(Decimal(n) + rest) == Prepend(Number(n), Lex(rest))
  {
    var d := Decimal(n);
    var s := d + rest;
    DecimalValue(n);
    DigitsEnd(d, rest);
    assert s[..|d|] == d && s[|d|..] == rest;
    assert s[0] == d[0] && d[0] in d;
  }

  lemma LexSymbol(c: char, rest: string)
    requires IsSymbol(c)
    ensures Lex([c] + rest) == Prepend(Symbol(c), Lex(rest))
  {
    assert ([c] + rest)[1..] == rest;
  }

  /** One token is lexed off the front when what follows does not continue it. */
  lemma LexPiece(p: Piece, rest: string)
    requires IsPiece(p) && (p.token.Symbol? || Separates(rest))
    ensures Lex(p.text + rest) == Prepend(p.token, Lex(rest))
  {
    match p.token {
      case Word(_) => LexWord(p.text, rest);
      case Quoted(name) => LexQuoted(name, rest);
      case Number(n) => LexNumber(n, rest);
      case Symbol(c) => LexSymbol(c, rest);
    }
  }

  function Rest(p: Piece, tail: seq<Piece>): string { (if p.space then " " else "") + Print(tail) }

  lemma RestSeparates(p: Piece, tail: seq<Piece>)
    requires tail != [] ==> IsPiece(tail[0]) && (p.space || p.token.Symbol? || tail[0].token.Symbol?)
    ensures p.token.Symbol? || Separates(Rest(p, tail))
    ensures Lex(Rest(p, tail)) == Lex(Print(tail))
  {
    if p.space {
      assert Rest(p, tail)[1..] == Print(tail);
    } else {
      assert Rest(p, tail) == Print(tail);
    }
  }

  lemma SpacedTail(ps: seq<Piece>)
    requires ps != [] && Spaced(ps)
    ensures Spaced(ps[1..])
  {
  }

  lemma PrintFirst(ps: seq<Piece>)
    requires ps != []
    ensures Print(ps) == ps[0].text + Rest(ps[0], ps[1..])
  {
    Assoc(ps[0].text, if ps[0].space then " " else "", Print(ps[1..]));
  }

  lemma TokensFirst(ps: seq<Piece>)
    requires ps != []
    ensures Tokens(ps) == [ps[0].token] + Tokens(ps[1..])
  {
  }

  /** Lexing a printed list of pieces gives their tokens. */
  lemma {:induction false} LexPrint(ps: seq<Piece>)
    requires Spaced(ps) && forall i :: 0 <= i < |ps| ==> IsPiece(ps[i])
    ensures Lex(Print(ps)) == Some(Tokens(ps))
  {
    if ps != [] {
      SpacedTail(ps);
      LexPrint(ps[1..]);
      assert ps[0].space || ps[0].token.Symbol? || |ps| == 1 || ps[1].token.Symbol?;
      RestSeparates(ps[0], ps[1..]);
      LexPiece(ps[0], Rest(ps[0], ps[1..]));
      PrintFirst(ps);
      TokensFirst(ps);
    }
  }

  /** Words come out folded and quoted identifiers not empty. */
  predicate WellFormed(t: Token) {
    (t.Word? ==> IsLowerWord(t.text)) && (t.Quoted? ==> t.name != "")
  }

  lemma LowerTwice(s: string)
    requires IsWord(s)
    ensures IsLowerWord(Lower(s))
  {
    var l := Lower(s);
    forall c <- l ensures IsContinue(c) {
      var i :| 0 <= i < |l| && l[i] == c;
      assert s[i] in s;
    }
    assert s[0] in s;
    assert Lower(l) == l;
  }

  lemma {:induction false} LexWellFormed(s: string)
    requires Lex(s).Some?
    ensures forall t <- Lex(s).value :: WellFormed(t)
    decreases |s|
  {
    if s == "" {
    } else if s[0] == ' ' {
      LexWellFormed(s[1..]);
    } else if s[0] == '"' {
      LexWellFormed(ScanQuoted(s[1..]).value.1);
    } else if IsStart(s[0]) {
      var n := WordLength(s);
      LexWellFormed(s[n..]);
      LowerTwice(s[..n]);
    } else if IsDigit(s[0]) {
      LexWellFormed(s[DigitsLength(s)..]);
    } else {
      LexWellFormed(s[1..]);
    }
  }
}
