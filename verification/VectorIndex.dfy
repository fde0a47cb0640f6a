/** CREATE INDEX statements for pgvector: the printer, and a parser that undoes it. */
module VectorIndex {
  import opened Text
  import opened SqlLexer

  /** A storage parameter: name = value. */
  datatype Parameter = Parameter(name: string, value: nat)

  /** An empty name leaves the choice of a name to the server. */
  datatype IndexSpec = IndexSpec(
    concurrently: bool, name: string, table: string, method_: string, column: string, opClass: string,
    params: seq<Parameter>)

  // ----- Parsing

  function ParseParams(ts: seq<Token>): Option<seq<Parameter>> {
    if |ts| < 4 || !ts[0].Word? || ts[1] != Symbol('=') || !ts[2].Number? then None
    else
      var p := Parameter(ts[0].text, ts[2].n);
      if ts[3..] == [Symbol(')')] then Some([p])
      else if ts[3] != Symbol(',') then None
      else
        match ParseParams(ts[4..])
        case None => None
        case Some(rest) => Some([p] + rest)
  }

  function ParseWith(ts: seq<Token>): Option<seq<Parameter>> {
    if ts == [] then Some([])
    else if |ts| < 2 || ts[..2] != [Word("with"), Symbol('(')] then None
    else ParseParams(ts[2..])
  }

  /** One name of a qualified name, as it is written. */
  function PartText(t: Token): string
    requires t.Word? || t.Quoted?
  {
    if t.Word? then t.text else QuoteIdent(t.name)
  }

  /** A name, perhaps qualified: names with dots between them. Also what follows it. */
  function ParseClass(ts: seq<Token>): Option<(string, seq<Token>)> {
    if ts == [] || !(ts[0].Word? || ts[0].Quoted?) then None
    else if |ts| > 1 && ts[1] == Symbol('.') then
      match ParseClass(ts[2..])
      case None => None
      case Some(r) => Some((PartText(ts[0]) + "." + r.0, r.1))
    else Some((PartText(ts[0]), ts[1..]))
  }

  /** ON table USING method ( column opclass ) [ WITH ( ... ) ] */
  function ParseBody(ts: seq<Token>, concurrently: bool, name: string): Option<IndexSpec> {
    if |ts| < 6 || ts[0] != Word("on") || !ts[1].Quoted? || ts[2] != Word("using") || !ts[3].Word?
       || ts[4] != Symbol('(') || !ts[5].Quoted? then None
    else
      match ParseClass(ts[6..])
      case None => None
      case Some((opClass, rest)) =>
        if rest == [] || rest[0] != Symbol(')') then None
        else
          match ParseWith(rest[1..])
          case None => None
          case Some(params) => Some(IndexSpec(concurrently, name, ts[1].name, ts[3].text, ts[5].name, opClass, params))
  }

  function ParseNamed(ts: seq<Token>, concurrently: bool): Option<IndexSpec> {
    if ts != [] && ts[0].Quoted? then ParseBody(ts[1..], concurrently, ts[0].name) else ParseBody(ts, concurrently, "")
  }

  /** CREATE INDEX [ CONCURRENTLY ] [ name ] ... */
  function ParseTokens(ts: seq<Token>): Option<IndexSpec> {
    if |ts| < 3 || ts[..2] != [Word("create"), Word("index")] then None
    else if ts[2] == Word("concurrently") then ParseNamed(ts[3..], true)
    else ParseNamed(ts[2..], false)
  }

  function ParseStatement(sql: string): Option<IndexSpec> {
    match Lex(sql)
    case None => None
    case Some(ts) => ParseTokens(ts)
  }

  // ----- The statement as pieces

  function Keyword(text: string): Piece { Piece(text, Word(Lower(text)), true) }
  function Identifier(name: string): Piece { Piece(QuoteIdent(name), Quoted(name), true) }
  function Mark(c: char, space: bool): Piece { Piece([c], Symbol(c), space) }

  function ParamPieces(p: Parameter): seq<Piece> {
    [Keyword(p.name), Mark('=', true), Piece(Decimal(p.value), Number(p.value), false)]
  }

  function ListPieces(params: seq<Parameter>): seq<Piece> {
    if |params| == 0 then []
    else if |params| == 1 then ParamPieces(params[0])
    else ParamPieces(params[0]) + [Mark(',', true)] + ListPieces(params[1..])
  }

  function WithPieces(params: seq<Parameter>): seq<Piece> {
    if params == [] then [] else [Keyword("WITH"), Mark('(', false)] + ListPieces(params) + [Mark(')', false)]
  }

  function OpeningPieces(concurrently: bool): seq<Piece> {
    [Keyword("CREATE"), Keyword("INDEX")] + if concurrently then [Keyword("CONCURRENTLY")] else []
  }

  function NamePieces(name: string): seq<Piece> { if name == "" then [] else [Identifier(name)] }

  function TargetPieces(s: IndexSpec): seq<Piece> {
    [Keyword("ON"), Identifier(s.table), Keyword("USING"), Keyword(s.method_)]
  }

  /** `more` says whether a WITH clause follows. */
  function ColumnPieces(s: IndexSpec, more: bool): seq<Piece> {
    [Mark('(', false), Identifier(s.column), Keyword(s.opClass).(space := false), Mark(')', more)]
  }

  function BodyPieces(s: IndexSpec, more: bool): seq<Piece> { TargetPieces(s) + ColumnPieces(s, more) }

  function StatementPieces(s: IndexSpec): seq<Piece> {
    OpeningPieces(s.concurrently) + NamePieces(s.name) + BodyPieces(s, s.params != []) + WithPieces(s.params)
  }

  predicate IsPart(t: Token) { (t.Word? && IsLowerWord(t.text)) || (t.Quoted? && t.name != "") }

  predicate AreParts(parts: seq<Token>) { parts != [] && forall i :: 0 <= i < |parts| ==> IsPart(parts[i]) }

  function ClassText(parts: seq<Token>): string
    requires AreParts(parts)
  {
    if |parts| == 1 then PartText(parts[0]) else PartText(parts[0]) + "." + ClassText(parts[1..])
  }

  /** A name, perhaps qualified by a schema: lower-case words and quoted identifiers with dots between them. */
  ghost predicate IsClass(c: string) { exists parts :: AreParts(parts) && ClassText(parts) == c }

  /** What the caller must respect: names are given, the operator class is a qualified name, and the method is
      a plain lower-case word, as are parameter names. */
  ghost predicate Printable(s: IndexSpec) {
    && s.table != "" && s.column != "" && IsClass(s.opClass) && IsLowerWord(s.method_)
    && forall i :: 0 <= i < |s.params| ==> IsLowerWord(s.params[i].name)
  }

  lemma Keywords()
    ensures IsWord("CREATE") && IsWord("INDEX") && IsWord("CONCURRENTLY") && IsWord("ON") && IsWord("USING")
        && IsWord("WITH")
    ensures Lower("CREATE") == "create" && Lower("INDEX") == "index" && Lower("CONCURRENTLY") == "concurrently"
    ensures Lower("ON") == "on" && Lower("USING") == "using" && Lower("WITH") == "with"
  {
  }

  // ----- Printed pieces are lexed back

  predicate Fit(ps: seq<Piece>) { Spaced(ps) && forall i :: 0 <= i < |ps| ==> IsPiece(ps[i]) }

  predicate Joins(a: seq<Piece>, b: seq<Piece>) {
    a != [] && b != [] ==> a[|a| - 1].space || a[|a| - 1].token.Symbol? || b[0].token.Symbol?
  }

  lemma SpacedAppend(a: seq<Piece>, b: seq<Piece>)
    requires Spaced(a) && Spaced(b) && Joins(a, b)
    ensures Spaced(a + b)
  {
    var ps := a + b;
    forall i | 0 <= i < |ps| - 1 ensures ps[i].space || ps[i].token.Symbol? || ps[i + 1].token.Symbol? {
      if i + 1 < |a| {
        assert ps[i] == a[i] && ps[i + 1] == a[i + 1];
      } else if i >= |a| {
        assert ps[i] == b[i - |a|] && ps[i + 1] == b[i - |a| + 1];
      }
    }
  }

  lemma FitAppend(a: seq<Piece>, b: seq<Piece>)
    requires Fit(a) && Fit(b) && Joins(a, b)
    ensures Fit(a + b)
    ensures Tokens(a + b) == Tokens(a) + Tokens(b)
  {
    SpacedAppend(a, b);
    forall i | 0 <= i < |a + b| ensures IsPiece((a + b)[i]) {
      assert (a + b)[i] == if i < |a| then a[i] else b[i - |a|];
    }
    TokensAppend(a, b);
  }

  predicate LowerNames(params: seq<Parameter>) { forall i :: 0 <= i < |params| ==> IsLowerWord(params[i].name) }

  lemma ParamFits(p: Parameter)
    requires IsLowerWord(p.name)
    ensures Fit(ParamPieces(p))
    ensures Tokens(ParamPieces(p)) == ParamTokens(p)
  {
  }

  lemma {:induction false} ListIsFit(params: seq<Parameter>)
    requires params != [] && LowerNames(params)
    ensures Fit(ListPieces(params)) && ListPieces(params) != []
  {
    ParamFits(params[0]);
    if |params| > 1 {
      ListIsFit(params[1..]);
      ListFits(params[0], ListPieces(params[1..]));
    }
  }

  /** The list followed by its closing parenthesis is parsed back. */
  lemma {:induction false} ListParses(params: seq<Parameter>)
    requires params != [] && LowerNames(params)
    ensures ParseParams(Tokens(ListPieces(params)) + [Symbol(')')]) == Some(params)
  {
    if |params| == 1 {
      ParseLast(params[0]);
      ParamFits(params[0]);
      assert params == [params[0]];
    } else {
      ListParses(params[1..]);
      var tail := Tokens(ListPieces(params[1..])) + [Symbol(')')];
      ParseMore(params[0], tail);
      ListTokens(params[0], ListPieces(params[1..]));
      assert Tokens(ListPieces(params)) + [Symbol(')')] == ParamTokens(params[0]) + [Symbol(',')] + tail;
      assert [params[0]] + params[1..] == params;
    }
  }

  function ParamTokens(p: Parameter): seq<Token> { [Word(p.name), Symbol('='), Number(p.value)] }

  lemma ListFits(p: Parameter, rest: seq<Piece>)
    requires IsLowerWord(p.name) && Fit(rest)
    ensures Fit(ParamPieces(p) + [Mark(',', true)] + rest)
  {
    var comma := [Mark(',', true)];
    ParamFits(p);
    FitAppend(ParamPieces(p), comma);
    FitAppend(ParamPieces(p) + comma, rest);
  }

  lemma ListTokens(p: Parameter, rest: seq<Piece>)
    requires IsLowerWord(p.name)
    ensures Tokens(ParamPieces(p) + [Mark(',', true)] + rest) == ParamTokens(p) + [Symbol(',')] + Tokens(rest)
  {
    ParamFits(p);
    TokensAppend(ParamPieces(p), [Mark(',', true)]);
    TokensAppend(ParamPieces(p) + [Mark(',', true)], rest);
    assert Tokens([Mark(',', true)]) == [Symbol(',')];
  }

  lemma TokensAppend(a: seq<Piece>, b: seq<Piece>)
    ensures Tokens(a + b) == Tokens(a) + Tokens(b)
  {
    forall i | 0 <= i < |a + b| ensures Tokens(a + b)[i] == (Tokens(a) + Tokens(b))[i] {
      assert (a + b)[i] == if i < |a| then a[i] else b[i - |a|];
    }
  }

  lemma ParseLast(p: Parameter)
    ensures ParseParams(ParamTokens(p) + [Symbol(')')]) == Some([p])
  {
    var ts := ParamTokens(p) + [Symbol(')')];
    assert ts[3..] == [Symbol(')')];
  }

  lemma ParseMore(p: Parameter, tail: seq<Token>)
    requires ParseParams(tail).Some?
    ensures ParseParams(ParamTokens(p) + [Symbol(',')] + tail) == Some([p] + ParseParams(tail).value)
  {
    var ts := ParamTokens(p) + [Symbol(',')] + tail;
    assert ts[4..] == tail;
    assert ts[3..][0] == Symbol(',');
  }

  lemma WithParses(params: seq<Parameter>)
    requires LowerNames(params)
    ensures Fit(WithPieces(params)) && ParseWith(Tokens(WithPieces(params))) == Some(params)
  {
    if params != [] {
      Keywords();
      ListIsFit(params);
      ListParses(params);
      var open := [Keyword("WITH"), Mark('(', false)];
      var close := [Mark(')', false)];
      FitAppend(open, ListPieces(params));
      FitAppend(open + ListPieces(params), close);
      var ts := Tokens(WithPieces(params));
      assert Tokens(open) == [Word("with"), Symbol('(')] && Tokens(close) == [Symbol(')')];
      assert ts == Tokens(open) + (Tokens(ListPieces(params)) + [Symbol(')')]);
      assert ts[2..] == Tokens(ListPieces(params)) + [Symbol(')')];
      assert ts[..2] == Tokens(open);
    }
  }

  // ----- The operator class, name by name

  function PartPiece(t: Token): Piece
    requires IsPart(t)
  {
    Piece(PartText(t), t, false)
  }

  function ClassPieces(parts: seq<Token>): seq<Piece>
    requires AreParts(parts)
  {
    if |parts| == 1 then [PartPiece(parts[0])]
    else [PartPiece(parts[0])] + [Mark('.', false)] + ClassPieces(parts[1..])
  }

  function ClassTokens(parts: seq<Token>): seq<Token> {
    if |parts| == 0 then [] else if |parts| == 1 then [parts[0]]
    else [parts[0]] + [Symbol('.')] + ClassTokens(parts[1..])
  }

  lemma {:induction false} ClassFits(parts: seq<Token>)
    requires AreParts(parts)
    ensures Fit(ClassPieces(parts)) && ClassPieces(parts) != []
    ensures Tokens(ClassPieces(parts)) == ClassTokens(parts)
  {
    var first := [PartPiece(parts[0])];
    assert Tokens(first) == [parts[0]];
    if |parts| > 1 {
      ClassFits(parts[1..]);
      DotFits(first, ClassPieces(parts[1..]));
    }
  }

  lemma DotFits(first: seq<Piece>, rest: seq<Piece>)
    requires Fit(first) && Fit(rest)
    ensures Fit(first + [Mark('.', false)] + rest)
    ensures Tokens(first + [Mark('.', false)] + rest) == Tokens(first) + [Symbol('.')] + Tokens(rest)
  {
    var dot := [Mark('.', false)];
    FitAppend(first, dot);
    FitAppend(first + dot, rest);
    assert Tokens(dot) == [Symbol('.')];
  }

  lemma {:induction false} ClassPrints(parts: seq<Token>)
    requires AreParts(parts)
    ensures Print(ClassPieces(parts)) == ClassText(parts)
  {
    PrintOne(PartPiece(parts[0]));
    if |parts| > 1 {
      var first, dot := [PartPiece(parts[0])], [Mark('.', false)];
      ClassPrints(parts[1..]);
      PrintOne(dot[0]);
      PrintAppend(first, dot);
      PrintAppend(first + dot, ClassPieces(parts[1..]));
    }
  }

  lemma {:induction false} ClassParses(parts: seq<Token>, rest: seq<Token>)
    requires AreParts(parts) && (rest != [] ==> rest[0] != Symbol('.'))
    ensures ParseClass(ClassTokens(parts) + rest) == Some((ClassText(parts), rest))
  {
    if |parts| == 1 {
      LastName(parts[0], rest);
    } else {
      ClassParses(parts[1..], rest);
      MoreNames(parts[0], ClassTokens(parts[1..]) + rest);
      Assoc([parts[0]] + [Symbol('.')], ClassTokens(parts[1..]), rest);
    }
  }

  lemma LastName(t: Token, rest: seq<Token>)
    requires (t.Word? || t.Quoted?) && (rest != [] ==> rest[0] != Symbol('.'))
    ensures ParseClass([t] + rest) == Some((PartText(t), rest))
  {
    assert ([t] + rest)[1..] == rest;
  }

  lemma MoreNames(t: Token, more: seq<Token>)
    requires (t.Word? || t.Quoted?) && ParseClass(more).Some?
    ensures
      var r := ParseClass(more).value;
      ParseClass([t] + [Symbol('.')] + more) == Some((PartText(t) + "." + r.0, r.1))
  {
    assert ([t] + [Symbol('.')] + more)[2..] == more;
  }

  /** A class that was read is a qualified name, and what follows it is as well formed as the whole. */
  lemma {:induction false} ParsedClass(ts: seq<Token>) returns (parts: seq<Token>)
    requires ParseClass(ts).Some? && forall i :: 0 <= i < |ts| ==> WellFormed(ts[i])
    ensures AreParts(parts) && ClassText(parts) == ParseClass(ts).value.0
    ensures var rest := ParseClass(ts).value.1; forall i :: 0 <= i < |rest| ==> WellFormed(rest[i])
  {
    assert WellFormed(ts[0]);
    if |ts| > 1 && ts[1] == Symbol('.') {
      var rest := ParsedClass(ts[2..]);
      parts := [ts[0]] + rest;
      assert parts[1..] == rest;
    } else {
      parts := [ts[0]];
    }
  }

  /** The column section with the operator class name by name prints the same. */
  function ColumnWith(s: IndexSpec, parts: seq<Token>, more: bool): seq<Piece>
    requires AreParts(parts)
  {
    [Mark('(', false), Identifier(s.column)] + ClassPieces(parts) + [Mark(')', more)]
  }

  lemma ColumnSections(s: IndexSpec, more: bool)
    ensures ColumnPieces(s, more) ==
      [Mark('(', false), Identifier(s.column)] + [Keyword(s.opClass).(space := false)] + [Mark(')', more)]
  {
  }

  lemma PrintThree(a: seq<Piece>, b: seq<Piece>, c: seq<Piece>)
    ensures Print(a + b + c) == Print(a) + Print(b) + Print(c)
  {
    PrintAppend(a, b);
    PrintAppend(a + b, c);
  }

  lemma PrintColumnWith(s: IndexSpec, parts: seq<Token>, more: bool)
    requires AreParts(parts) && ClassText(parts) == s.opClass
    ensures Print(ColumnWith(s, parts, more)) == Print(ColumnPieces(s, more))
  {
    var head, last := [Mark('(', false), Identifier(s.column)], [Mark(')', more)];
    var word := [Keyword(s.opClass).(space := false)];
    ClassPrints(parts);
    PrintOne(word[0]);
    PrintThree(head, ClassPieces(parts), last);
    PrintThree(head, word, last);
    ColumnSections(s, more);
  }

  function HeadTokens(s: IndexSpec): seq<Token> {
    [Word("on"), Quoted(s.table), Word("using"), Word(s.method_), Symbol('('), Quoted(s.column)]
  }

  function BodyTokens(s: IndexSpec, parts: seq<Token>): seq<Token> {
    HeadTokens(s) + ClassTokens(parts) + [Symbol(')')]
  }

  lemma ColumnFits(s: IndexSpec, parts: seq<Token>, more: bool)
    requires s.column != "" && AreParts(parts)
    ensures Fit(ColumnWith(s, parts, more))
    ensures Tokens(ColumnWith(s, parts, more)) ==
      [Symbol('('), Quoted(s.column)] + ClassTokens(parts) + [Symbol(')')]
  {
    var head, last := [Mark('(', false), Identifier(s.column)], [Mark(')', more)];
    ClassFits(parts);
    FitAppend(head, ClassPieces(parts));
    FitAppend(head + ClassPieces(parts), last);
    assert Tokens(head) == [Symbol('('), Quoted(s.column)] && Tokens(last) == [Symbol(')')];
  }

  lemma TargetFits(s: IndexSpec)
    requires s.table != "" && IsLowerWord(s.method_)
    ensures Fit(TargetPieces(s))
    ensures Tokens(TargetPieces(s)) == [Word("on"), Quoted(s.table), Word("using"), Word(s.method_)]
  {
    Keywords();
  }

  lemma BodyFits(s: IndexSpec, parts: seq<Token>, more: bool)
    requires s.table != "" && s.column != "" && IsLowerWord(s.method_) && AreParts(parts)
    ensures Fit(TargetPieces(s) + ColumnWith(s, parts, more))
    ensures Tokens(TargetPieces(s) + ColumnWith(s, parts, more)) == BodyTokens(s, parts)
  {
    TargetFits(s);
    ColumnFits(s, parts, more);
    FitAppend(TargetPieces(s), ColumnWith(s, parts, more));
    var target := [Word("on"), Quoted(s.table), Word("using"), Word(s.method_)];
    var column := [Symbol('('), Quoted(s.column)];
    assert HeadTokens(s) == target + column;
    Gathered(target, column, ClassTokens(parts), [Symbol(')')]);
  }

  lemma Gathered<T>(a: seq<T>, b: seq<T>, c: seq<T>, d: seq<T>)
    ensures a + (b + c + d) == a + b + c + d
  {
    Assoc(a, b + c, d);
    Assoc(a, b, c);
  }

  lemma OpeningFits(concurrently: bool, name: string)
    ensures Fit(OpeningPieces(concurrently) + NamePieces(name))
    ensures Tokens(OpeningPieces(concurrently) + NamePieces(name)) ==
      [Word("create"), Word("index")] + (if concurrently then [Word("concurrently")] else [])
      + (if name == "" then [] else [Quoted(name)])
  {
    Keywords();
    FitAppend(OpeningPieces(concurrently), NamePieces(name));
  }

  lemma PrintableParses(s: IndexSpec)
    requires Printable(s)
    ensures ParseStatement(Print(StatementPieces(s))) == Some(s)
  {
    var parts :| AreParts(parts) && ClassText(parts) == s.opClass;
    var more := s.params != [];
    var opening := OpeningPieces(s.concurrently) + NamePieces(s.name);
    var body := TargetPieces(s) + ColumnWith(s, parts, more);
    OpeningFits(s.concurrently, s.name);
    BodyFits(s, parts, more);
    WithParses(s.params);
    FitAppend(opening, body);
    FitAppend(opening + body, WithPieces(s.params));
    SamePrint(s, parts, more);
    LexPrint(opening + body + WithPieces(s.params));
    TokensParse(s, parts, Tokens(WithPieces(s.params)));
  }

  lemma SamePrint(s: IndexSpec, parts: seq<Token>, more: bool)
    requires AreParts(parts) && ClassText(parts) == s.opClass && more == (s.params != [])
    ensures
      var opening := OpeningPieces(s.concurrently) + NamePieces(s.name);
      Print(StatementPieces(s)) ==
        Print(opening + (TargetPieces(s) + ColumnWith(s, parts, more)) + WithPieces(s.params))
  {
    var opening := OpeningPieces(s.concurrently) + NamePieces(s.name);
    PrintColumnWith(s, parts, more);
    PrintAppend(TargetPieces(s), ColumnWith(s, parts, more));
    PrintAppend(TargetPieces(s), ColumnPieces(s, more));
    PrintAppend(opening, TargetPieces(s) + ColumnWith(s, parts, more));
    PrintAppend(opening, BodyPieces(s, more));
    PrintAppend(opening + (TargetPieces(s) + ColumnWith(s, parts, more)), WithPieces(s.params));
    PrintAppend(opening + BodyPieces(s, more), WithPieces(s.params));
  }

  lemma TokensParse(s: IndexSpec, parts: seq<Token>, tail: seq<Token>)
    requires AreParts(parts) && ClassText(parts) == s.opClass && ParseWith(tail) == Some(s.params)
    ensures ParseTokens(
      [Word("create"), Word("index")] + (if s.concurrently then [Word("concurrently")] else [])
      + (if s.name == "" then [] else [Quoted(s.name)]) + BodyTokens(s, parts) + tail) == Some(s)
  {
    var concurrently := if s.concurrently then [Word("concurrently")] else [];
    var name := if s.name == "" then [] else [Quoted(s.name)];
    var body := BodyTokens(s, parts);
    NamedParse(s, parts, tail);
    OpeningParses(s, name + (body + tail));
    Regrouped([Word("create"), Word("index")] + concurrently, name, body, tail);
  }

  lemma Regrouped<T>(a: seq<T>, b: seq<T>, c: seq<T>, d: seq<T>)
    ensures a + (b + (c + d)) == a + b + c + d
  {
    Assoc(a + b, c, d);
    Assoc(a, b, c + d);
  }

  lemma OpeningParses(s: IndexSpec, named: seq<Token>)
    requires named != [] && named[0] != Word("concurrently") && ParseNamed(named, s.concurrently) == Some(s)
    ensures ParseTokens(
      [Word("create"), Word("index")] + (if s.concurrently then [Word("concurrently")] else []) + named) == Some(s)
  {
    var prefix := [Word("create"), Word("index")] + (if s.concurrently then [Word("concurrently")] else []);
    var ts := prefix + named;
    assert ts[..2] == [Word("create"), Word("index")];
    assert ts[|prefix|..] == named;
  }

  lemma NamedParse(s: IndexSpec, parts: seq<Token>, tail: seq<Token>)
    requires AreParts(parts) && ClassText(parts) == s.opClass && ParseWith(tail) == Some(s.params)
    ensures
      var named := (if s.name == "" then [] else [Quoted(s.name)]) + (BodyTokens(s, parts) + tail);
      named != [] && named[0] != Word("concurrently") && ParseNamed(named, s.concurrently) == Some(s)
  {
    var rest := BodyTokens(s, parts) + tail;
    BodyParses(s, parts, tail);
    assert [] + rest == rest && ([Quoted(s.name)] + rest)[1..] == rest;
  }

  lemma BodyParses(s: IndexSpec, parts: seq<Token>, tail: seq<Token>)
    requires AreParts(parts) && ClassText(parts) == s.opClass && ParseWith(tail) == Some(s.params)
    ensures ParseBody(BodyTokens(s, parts) + tail, s.concurrently, s.name) == Some(s)
    ensures (BodyTokens(s, parts) + tail)[0] == Word("on")
  {
    var rest := [Symbol(')')] + tail;
    ClassParses(parts, rest);
    AfterHead(s, ClassTokens(parts) + rest);
    Assoc(HeadTokens(s) + ClassTokens(parts), [Symbol(')')], tail);
    Assoc(HeadTokens(s), ClassTokens(parts), rest);
    assert rest[1..] == tail;
  }

  lemma AfterHead(s: IndexSpec, more: seq<Token>)
    ensures
      var ts := HeadTokens(s) + more;
      && |ts| >= 6 && ts[6..] == more && ts[0] == Word("on") && ts[1] == Quoted(s.table) && ts[2] == Word("using")
      && ts[3] == Word(s.method_) && ts[4] == Symbol('(') && ts[5] == Quoted(s.column)
  {
  }

  // ----- What a parsed statement says about its parts

  lemma {:induction false} ParsedNames(ts: seq<Token>)
    requires ParseParams(ts).Some? && forall i :: 0 <= i < |ts| ==> WellFormed(ts[i])
    ensures LowerNames(ParseParams(ts).value)
  {
    assert WellFormed(ts[0]);
    if ts[3..] != [Symbol(')')] {
      ParsedNames(ts[4..]);
    }
  }

  lemma ParsedBody(ts: seq<Token>, concurrently: bool, name: string)
    requires ParseBody(ts, concurrently, name).Some? && forall i :: 0 <= i < |ts| ==> WellFormed(ts[i])
    ensures Printable(ParseBody(ts, concurrently, name).value)
  {
    assert WellFormed(ts[1]) && WellFormed(ts[3]) && WellFormed(ts[5]);
    var parts := ParsedClass(ts[6..]);
    var rest := ParseClass(ts[6..]).value.1;
    ParsedWith(rest[1..]);
  }

  lemma ParsedWith(ts: seq<Token>)
    requires ParseWith(ts).Some? && forall i :: 0 <= i < |ts| ==> WellFormed(ts[i])
    ensures LowerNames(ParseWith(ts).value)
  {
    if ts != [] {
      ParsedNames(ts[2..]);
    }
  }

  lemma ParsedIsPrintable(ts: seq<Token>)
    requires ParseTokens(ts).Some? && forall i :: 0 <= i < |ts| ==> WellFormed(ts[i])
    ensures Printable(ParseTokens(ts).value)
  {
    var concurrently := ts[2] == Word("concurrently");
    var named := ts[if concurrently then 3 else 2..];
    assert ParseTokens(ts) == ParseNamed(named, concurrently);
    if named != [] && named[0].Quoted? {
      ParsedBody(named[1..], concurrently, named[0].name);
    } else {
      ParsedBody(named, concurrently, "");
    }
  }

  /** The printed statement reads back as the request it was printed from exactly when the table and
      column are named, the operator class is a qualified name, and the method and parameters are plain
      lower-case words. Quoting takes care of every other character in a name. */
  lemma RoundTrip(s: IndexSpec)
    ensures ParseStatement(Print(StatementPieces(s))) == Some(s) <==> Printable(s)
  {
    if Printable(s) {
      PrintableParses(s);
    }
    var sql := Print(StatementPieces(s));
    if ParseStatement(sql) == Some(s) {
      LexWellFormed(sql);
      ParsedIsPrintable(Lex(sql).value);
    }
  }

  // ----- The code

  datatype HNSWOptions = HNSWOptions(m: int, efConstruction: int, name: string, concurrently: bool)
  datatype IVFFlatOptions = IVFFlatOptions(lists: int, name: string, concurrently: bool)

  /** The options the caller set; the others are left to the server. */
  function HnswParams(opts: HNSWOptions): seq<Parameter> {
    (if opts.m > 0 then [Parameter("m", opts.m)] else [])
    + if opts.efConstruction > 0 then [Parameter("ef_construction", opts.efConstruction)] else []
  }

  /** `strings.Join(parts, ", ")`. */
  function CommaJoin(parts: seq<string>): string {
    if |parts| == 0 then "" else if |parts| == 1 then parts[0] else parts[0] + ", " + CommaJoin(parts[1..])
  }

  lemma PrintParam(p: Parameter)
    ensures Print(ParamPieces(p)) == p.name + " = " + Decimal(p.value)
  {
    var ps := ParamPieces(p);
    assert ps[1..][1..] == [ps[2]] && ps[1..][1..][1..] == [];
    assert Print(ps[1..][1..]) == Decimal(p.value);
    assert Print(ps[1..]) == "= " + Decimal(p.value);
    assert Print(ps) == p.name + " " + Print(ps[1..]);
  }

  function ParamText(p: Parameter): string { p.name + " = " + Decimal(p.value) }

  function ParamTexts(params: seq<Parameter>): seq<string> {
    seq(|params|, i requires 0 <= i < |params| => ParamText(params[i]))
  }

  lemma {:induction false} PrintList(params: seq<Parameter>)
    ensures Print(ListPieces(params)) == CommaJoin(ParamTexts(params))
  {
    if params != [] {
      var first, comma := ParamPieces(params[0]), [Mark(',', true)];
      PrintParam(params[0]);
      PrintList(params[1..]);
      PrintAppend(first, comma);
      PrintAppend(first + comma, ListPieces(params[1..]));
      assert comma[1..] == [] && Print(comma) == ", ";
      assert ParamTexts(params)[1..] == ParamTexts(params[1..]);
    }
  }

  lemma HnswTexts(opts: HNSWOptions)
    ensures ParamTexts(HnswParams(opts)) ==
      (if opts.m > 0 then ["m = " + Decimal(opts.m)] else [])
      + if opts.efConstruction > 0 then ["ef_construction = " + Decimal(opts.efConstruction)] else []
  {
    assert "m" + " = " == "m = " && "ef_construction" + " = " == "ef_construction = ";
  }

  lemma JoinTwo(a: string, b: string)
    ensures CommaJoin([a]) == a && CommaJoin([b]) == b && CommaJoin([a] + [b]) == a + ", " + b
  {
    assert ([a] + [b])[1..] == [b];
  }

  /** The clause spelled out. */
  function HnswClause(m: int, ef: int): string {
    if m <= 0 && ef <= 0 then ""
    else if ef <= 0 then "m = " + Decimal(m)
    else if m <= 0 then "ef_construction = " + Decimal(ef)
    else "m = " + Decimal(m) + ", " + ("ef_construction = " + Decimal(ef))
  }

  method HnswWithClause(opts: HNSWOptions) returns (clause: string)
    ensures clause == Print(ListPieces(HnswParams(opts)))
    ensures clause == HnswClause(opts.m, opts.efConstruction)
  {
    var parts: seq<string> := [];
    if opts.m > 0 {
      parts := parts + ["m = " + Decimal(opts.m)];
    }
    if opts.efConstruction > 0 {
      parts := parts + ["ef_construction = " + Decimal(opts.efConstruction)];
    }
    clause := CommaJoin(parts);
    JoinTwo("m = " + Decimal(if opts.m > 0 then opts.m else 0),
      "ef_construction = " + Decimal(if opts.efConstruction > 0 then opts.efConstruction else 0));
    HnswTexts(opts);
    PrintList(HnswParams(opts));
  }

  function Own(p: Piece): string { p.text + if p.space then " " else "" }

  lemma PrintOne(p: Piece)
    ensures Print([p]) == Own(p)
  {
    assert [p][1..] == [];
  }

  /** One write to the builder prints one piece. `lead` and `next` are a space that the piece before leaves
      to this write, or that this write leaves to the next. */
  lemma Write(b: string, before: seq<Piece>, body: seq<Piece>, k: nat, lead: string, w: string, next: string)
    requires k < |body| && Print(before + body[..k]) == b + lead
    requires w + next == lead + Own(body[k])
    ensures Print(before + body[..k + 1]) == (b + w) + next
  {
    PrintAppend(before + body[..k], [body[k]]);
    PrintOne(body[k]);
    assert before + body[..k] + [body[k]] == before + body[..k + 1];
    Regroup(b, lead, Own(body[k]), w, next);
  }

  lemma Regroup(b: string, lead: string, own: string, w: string, next: string)
    requires w + next == lead + own
    ensures (b + lead) + own == (b + w) + next
  {
    assert (b + lead) + own == b + (lead + own);
    assert (b + w) + next == b + (w + next);
  }

  lemma PrintWith(params: seq<Parameter>)
    requires params != []
    ensures Print(WithPieces(params)) == ("WITH (" + Print(ListPieces(params))) + ")"
  {
    var open, close, list := [Keyword("WITH"), Mark('(', false)], [Mark(')', false)], ListPieces(params);
    PrintAppend(open, list);
    PrintAppend(open + list, close);
    PrintOne(close[0]);
    assert Print(open) == "WITH (" by {
      PrintAppend([open[0]], [open[1]]);
      PrintOne(open[0]);
      PrintOne(open[1]);
      assert open == [open[0]] + [open[1]];
    }
  }

  lemma WithFollows(b: string, ps: seq<Piece>, params: seq<Parameter>)
    requires params != [] && Print(ps) == b + " "
    ensures Print(ps + WithPieces(params)) == ((b + " WITH (") + Print(ListPieces(params))) + ")"
  {
    PrintWith(params);
    PrintAppend(ps, WithPieces(params));
    WithText(b, Print(ListPieces(params)));
  }

  lemma WithText(b: string, list: string)
    ensures (b + " ") + (("WITH (" + list) + ")") == ((b + " WITH (") + list) + ")"
  {
    assert " " + "WITH (" == " WITH (";
    assert (b + " ") + "WITH (" == b + " WITH (";
  }

  lemma ListText(params: seq<Parameter>)
    ensures Print(ListPieces(params)) == "" <==> params == []
  {
    PrintList(params);
  }

  lemma Sections(s: IndexSpec)
    ensures StatementPieces(s) ==
      OpeningPieces(s.concurrently) + NamePieces(s.name) + TargetPieces(s) + ColumnPieces(s, s.params != [])
      + WithPieces(s.params)
  {
    var a, t, c := OpeningPieces(s.concurrently) + NamePieces(s.name), TargetPieces(s), ColumnPieces(s, s.params != []);
    assert a + (t + c) == a + t + c;
  }

  /** The statement spelled out, for any request. */
  function StatementText(method_: string, table: string, column: string, opClass: string, name: string,
      concurrently: bool, withClause: string): string
  {
    var opening := if concurrently then "CREATE INDEX " + "CONCURRENTLY " else "CREATE INDEX ";
    var named := if name == "" then opening else opening + QuoteIdent(name) + " ";
    var target := named + "ON " + QuoteIdent(table) + " USING " + method_;
    var body := target + " (" + QuoteIdent(column) + " " + opClass + ")";
    if withClause == "" then body else body + " WITH (" + withClause + ")"
  }

  method BuildVectorIndexSQL(method_: string, table: string, column: string, opClass: string, name: string,
      concurrently: bool, withClause: string)
    returns (sql: string)
    ensures sql == StatementText(method_, table, column, opClass, name, concurrently, withClause)
    ensures forall params :: withClause == Print(ListPieces(params)) ==>
      sql == Print(StatementPieces(IndexSpec(concurrently, name, table, method_, column, opClass, params)))
  {
    ghost var s := IndexSpec(concurrently, name, table, method_, column, opClass, []);
    var b := "CREATE INDEX ";
    if concurrently {
      b := b + "CONCURRENTLY ";
    }
    ghost var ps := OpeningPieces(concurrently);
    PrintOpening(concurrently);
    if name != "" {
      ghost var b0 := b;
      b := b + QuoteIdent(name);
      b := b + " ";
      PrintAppend(ps, NamePieces(name));
      PrintOne(Identifier(name));
      assert b == b0 + (QuoteIdent(name) + " ");
    }
    assert ps + [] == ps;
    ps := ps + NamePieces(name);
    b := WriteTarget(b, method_, table, ps, s);
    ps := ps + TargetPieces(s);
    b := WriteColumn(b, column, opClass, ps, s, withClause != "");
    ps := ps + ColumnPieces(s, withClause != "");
    ghost var body := b;
    if withClause != "" {
      b := b + " WITH (";
      b := b + withClause;
      b := b + ")";
    }
    sql := b;
    forall params | withClause == Print(ListPieces(params))
      ensures sql == Print(StatementPieces(IndexSpec(concurrently, name, table, method_, column, opClass, params)))
    {
      ListText(params);
      if params != [] {
        WithFollows(body, ps, params);
      } else {
        assert ps + [] == ps;
      }
      Sections(IndexSpec(concurrently, name, table, method_, column, opClass, params));
    }
  }

  lemma PrintOpening(concurrently: bool)
    ensures Print(OpeningPieces(concurrently)) == "CREATE INDEX " + if concurrently then "CONCURRENTLY " else ""
  {
    var create, index := Keyword("CREATE"), Keyword("INDEX");
    PrintOne(create);
    PrintOne(index);
    PrintOne(Keyword("CONCURRENTLY"));
    PrintAppend([create], [index]);
    assert [create] + [index] == [create, index];
    PrintAppend([create, index], [Keyword("CONCURRENTLY")]);
    assert "CREATE " + "INDEX " == "CREATE INDEX ";
    assert [create, index] + [] == [create, index];
  }

  lemma TargetTexts(s: IndexSpec)
    ensures
      var ps := TargetPieces(s);
      && "ON " + "" == "" + Own(ps[0]) && QuoteIdent(s.table) + " " == "" + Own(ps[1])
      && " USING " + "" == " " + Own(ps[2]) && s.method_ + " " == "" + Own(ps[3])
  {
    assert Own(Keyword("USING")) == "USING ";
  }

  lemma ColumnTexts(s: IndexSpec, more: bool)
    ensures
      var ps := ColumnPieces(s, more);
      && " (" + "" == " " + Own(ps[0]) && QuoteIdent(s.column) + " " == "" + Own(ps[1])
      && s.opClass + "" == "" + Own(ps[2]) && ")" + (if more then " " else "") == "" + Own(ps[3])
  {
  }

  /** The part of BuildVectorIndexSQL that writes ON table USING method. The space after it is left to the
      next write. */
  method WriteTarget(start: string, method_: string, table: string, ghost before: seq<Piece>, ghost s: IndexSpec)
    returns (b: string)
    requires Print(before) == start && s.method_ == method_ && s.table == table
    ensures Print(before + TargetPieces(s)) == b + " "
    ensures b == start + "ON " + QuoteIdent(table) + " USING " + method_
  {
    ghost var ps := TargetPieces(s);
    TargetTexts(s);
    assert before + ps[..0] == before && ps[..4] == ps;
    b := start;
    Write(b, before, ps, 0, "", "ON ", "");
    b := b + "ON ";
    Write(b, before, ps, 1, "", QuoteIdent(table), " ");
    b := b + QuoteIdent(table);
    Write(b, before, ps, 2, " ", " USING ", "");
    b := b + " USING ";
    Write(b, before, ps, 3, "", method_, " ");
    b := b + method_;
  }

  /** The part that writes (column opclass). A space is left to the WITH clause when one follows. */
  method WriteColumn(start: string, column: string, opClass: string, ghost before: seq<Piece>, ghost s: IndexSpec,
      ghost more: bool)
    returns (b: string)
    requires Print(before) == start + " " && s.column == column && s.opClass == opClass
    ensures Print(before + ColumnPieces(s, more)) == b + if more then " " else ""
    ensures b == start + " (" + QuoteIdent(column) + " " + opClass + ")"
  {
    ghost var ps := ColumnPieces(s, more);
    ColumnTexts(s, more);
    assert before + ps[..0] == before && ps[..4] == ps;
    b := start;
    Write(b, before, ps, 0, " ", " (", "");
    b := b + " (";
    Write(b, before, ps, 1, "", QuoteIdent(column), " ");
    b := b + QuoteIdent(column);
    b := b + " ";
    Write(b, before, ps, 2, "", opClass, "");
    b := b + opClass;
    Write(b, before, ps, 3, "", ")", if more then " " else "");
    b := b + ")";
  }

  /** The request CreateHNSWIndex sends to the server. */
  method CreateHNSWIndex(table: string, column: string, opClass: string, opts: HNSWOptions) returns (sql: string)
    ensures
      var s := IndexSpec(opts.concurrently, opts.name, table, "hnsw", column, opClass, HnswParams(opts));
      ParseStatement(sql) == Some(s) <==> table != "" && column != "" && IsClass(opClass)
    ensures sql == StatementText("hnsw", table, column, opClass, opts.name, opts.concurrently,
                                 HnswClause(opts.m, opts.efConstruction))
  {
    var clause := HnswWithClause(opts);
    sql := BuildVectorIndexSQL("hnsw", table, column, opClass, opts.name, opts.concurrently, clause);
    ghost var s := IndexSpec(opts.concurrently, opts.name, table, "hnsw", column, opClass, HnswParams(opts));
    HnswRoundTrip(s, opts);
  }

  lemma HnswRoundTrip(s: IndexSpec, opts: HNSWOptions)
    requires s.method_ == "hnsw" && s.params == HnswParams(opts)
    ensures ParseStatement(Print(StatementPieces(s))) == Some(s)
       <==> s.table != "" && s.column != "" && IsClass(s.opClass)
  {
    FixedWords();
    RoundTrip(s);
  }

  /** None is the error for a missing list count. */
  method CreateIVFFlatIndex(table: string, column: string, opClass: string, opts: IVFFlatOptions)
    returns (sql: Option<string>)
    ensures sql.None? <==> opts.lists <= 0
    ensures sql.Some? ==>
      var s := IndexSpec(opts.concurrently, opts.name, table, "ivfflat", column, opClass, [Parameter("lists",
          opts.lists)]);
      ParseStatement(sql.value) == Some(s) <==> table != "" && column != "" && IsClass(opClass)
    ensures sql.Some? ==>
      sql.value == StatementText("ivfflat", table, column, opClass, opts.name, opts.concurrently,
                                 "lists = " + Decimal(opts.lists))
  {
    if opts.lists <= 0 {
      return None;
    }
    ghost var params := [Parameter("lists", opts.lists)];
    PrintParam(params[0]);
    assert "lists" + " = " == "lists = ";
    assert ListPieces(params) == ParamPieces(params[0]);
    var text := BuildVectorIndexSQL("ivfflat", table, column, opClass, opts.name, opts.concurrently,
      "lists = " + Decimal(opts.lists));
    ghost var s := IndexSpec(opts.concurrently, opts.name, table, "ivfflat", column, opClass, params);
    FixedWords();
    RoundTrip(s);
    sql := Some(text);
  }

  lemma FixedWords()
    ensures IsLowerWord("hnsw") && IsLowerWord("ivfflat")
    ensures IsLowerWord("m") && IsLowerWord("ef_construction") && IsLowerWord("lists")
  {
  }
}
