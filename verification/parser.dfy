/** The recursive-descent parser (class Parser, src/parser.cpp). Every
    `parseX` member becomes a function from a token sequence and a cursor
    to the node it builds and the cursor after it, or the message of the
    `std::runtime_error` it throws. The token sequence may lack its EOF
    token: reading past its end reads an EOF token, and the cursor never
    moves past the first EOF, so every cursor is at most `Limit(ts)`. */
module Parser {

  import opened Results
  import opened Text
  import opened Tokens
  import opened Ast
  import Lexer

  /** A node and the cursor after it. */
  datatype Parsed<T> = Parsed(value: T, pos: nat)

  // ---------------------------------------------------------------------
  // The cursor: peek, match, consume
  // ---------------------------------------------------------------------

  /** What `peek()` reads beyond the last token. */
  const EndToken := Token(EOF_TOKEN, "", 0, 0)

  /** `peek()`: the token under the cursor. */
  function Peek(ts: seq<Token>, p: nat): Token {
    if p < |ts| then ts[p] else EndToken
  }

  /** The position of the first EOF token, or the length when there is none:
      the farthest the cursor can go. */
  function Limit(ts: seq<Token>): (n: nat)
    ensures n <= |ts| && Peek(ts, n).kind == EOF_TOKEN
  {
    if |ts| == 0 || ts[0].kind == EOF_TOKEN then 0 else Limit(ts[1..]) + 1
  }

  /** No EOF token comes before the limit. */
  lemma {:induction false} BeforeLimit(ts: seq<Token>, i: nat)
    requires i <= Limit(ts)
    ensures i < Limit(ts) ==> Peek(ts, i).kind != EOF_TOKEN
  {
    if 0 < i < Limit(ts) {
      BeforeLimit(ts[1..], i - 1);
    }
  }

  /** `isAtEnd()`: the cursor is on an EOF token, that is, at the limit. */
  predicate AtEnd(ts: seq<Token>, p: nat)
    requires p <= Limit(ts)
    ensures AtEnd(ts, p) <==> p == Limit(ts)
  {
    BeforeLimit(ts, p);
    Peek(ts, p).kind == EOF_TOKEN
  }

  /** A cursor on a token other than EOF is before the limit. */
  lemma NotAtEnd(ts: seq<Token>, p: nat)
    requires p <= Limit(ts) && Peek(ts, p).kind != EOF_TOKEN
    ensures p < Limit(ts)
  {
  }

  /** `match(k)` succeeds, and then moves the cursor one token on. */
  predicate Match(ts: seq<Token>, p: nat, k: Kind)
    requires p <= Limit(ts)
    ensures Match(ts, p, k) <==> k != EOF_TOKEN && Peek(ts, p).kind == k
    ensures Match(ts, p, k) ==> p < Limit(ts)
  {
    !AtEnd(ts, p) && Peek(ts, p).kind == k
  }

  /** `consume(k, err)`: the text of the matched token, or `err`. */
  function Consume(ts: seq<Token>, p: nat, k: Kind, err: string): (r: Result<Parsed<string>>)
    requires p <= Limit(ts)
    ensures r.Ok? <==> Match(ts, p, k)
    ensures r.Ok? ==> r.value == Parsed(ts[p].text, p + 1) && ts[p].kind == k
    ensures r.Err? ==> r.msg == err
  {
    if Match(ts, p, k) then Ok(Parsed(ts[p].text, p + 1)) else Err(err)
  }

  /** A parse that leaves the cursor at or after `p`, never past the limit. */
  ghost predicate Advanced<T>(ts: seq<Token>, p: nat, r: Result<Parsed<T>>) {
    r.Ok? ==> p <= r.value.pos <= Limit(ts)
  }

  /** A parse that consumes at least one token. */
  ghost predicate Progressed<T>(ts: seq<Token>, p: nat, r: Result<Parsed<T>>) {
    r.Ok? ==> p < r.value.pos <= Limit(ts)
  }

  predicate IsLayout(k: Kind) {
    k == NEWLINE || k == INDENT || k == DEDENT
  }

  /** The `SKIP_IGNORE` loop: past NEWLINE, INDENT and DEDENT tokens. */
  function SkipLayout(ts: seq<Token>, p: nat): (q: nat)
    requires p <= Limit(ts)
    ensures p <= q <= Limit(ts) && !IsLayout(Peek(ts, q).kind)
    ensures forall i :: p <= i < q ==> IsLayout(ts[i].kind)
    decreases Limit(ts) - p
  {
    if p < Limit(ts) && IsLayout(ts[p].kind) then SkipLayout(ts, p + 1) else p
  }

  /** The loop after a then-branch that skips blank lines. */
  function SkipNewlines(ts: seq<Token>, p: nat): (q: nat)
    requires p <= Limit(ts)
    ensures p <= q <= Limit(ts) && Peek(ts, q).kind != NEWLINE
    ensures forall i :: p <= i < q ==> ts[i].kind == NEWLINE
    decreases Limit(ts) - p
  {
    if p < Limit(ts) && ts[p].kind == NEWLINE then SkipNewlines(ts, p + 1) else p
  }

  /** `op[0]` of an operator token's text; `'\0'` for an empty text, which
      is what `std::string::operator[]` yields at the size. */
  function FirstChar(s: string): char {
    if |s| > 0 then s[0] else '\0'
  }

  // ---------------------------------------------------------------------
  // Binary operators: one tier per parse level, loosest first
  // ---------------------------------------------------------------------

  /** or, and, comparison, bitwise, additive, multiplicative. */
  const Tiers: nat := 6

  /** The operator character a token stands for at tier `lvl`, or `None`
      when it is not an operator of that tier. */
  function OpOf(lvl: nat, t: Token): (r: Option<char>)
    ensures r.Some? ==> t.kind != EOF_TOKEN
  {
    if lvl == 0 then (if t.kind == OR then Some('|') else None)
    else if lvl == 1 then (if t.kind == AND then Some('&') else None)
    else if lvl == 2 then
      (if t.kind == LT || t.kind == GT || t.kind == EQ_EQ || t.kind == BANG_EQ then Some(FirstChar(t.text)) else None)
    else if lvl == 3 then
      (match t.kind
       case BIT_AND => Some('&')
       case BIT_OR => Some('|')
       case XOR => Some('^')
       case LSHIFT => Some('L')
       case RSHIFT => Some('R')
       case _ => None)
    else if lvl == 4 then (if t.kind == PLUS || t.kind == MINUS then Some(FirstChar(t.text)) else None)
    else if lvl == 5 then (if t.kind == STAR || t.kind == SLASH then Some(FirstChar(t.text)) else None)
    else None
  }

  /** The token at `q` is an operator of no tier from `lvl` on: an
      expression of tier `lvl` cannot be extended there. */
  ghost predicate Stops(ts: seq<Token>, q: nat, lvl: nat) {
    forall j :: lvl <= j < Tiers ==> OpOf(j, Peek(ts, q)).None?
  }

  /** `parseExpression`. */
  function Expression(ts: seq<Token>, p: nat): (r: Result<Parsed<Expr>>)
    requires p <= Limit(ts)
    ensures Progressed(ts, p, r)
    ensures r.Ok? ==> Stops(ts, r.value.pos, 0)
    decreases Limit(ts) - p, 23
  {
    Binary(ts, p, 0)
  }

  /** `parseLogicOr` … `parseTerm`: an operand, then any number of
      `op operand` at this tier, folded to the left. */
  function Binary(ts: seq<Token>, p: nat, lvl: nat): (r: Result<Parsed<Expr>>)
    requires p <= Limit(ts) && lvl < Tiers
    ensures Progressed(ts, p, r)
    ensures r.Ok? ==> Stops(ts, r.value.pos, lvl)
    decreases Limit(ts) - p, 10 + 2 * (Tiers - lvl)
  {
    var left :- Operand(ts, p, lvl);
    BinaryRest(ts, left.pos, lvl, left.value)
  }

  /** The operand of tier `lvl`: the next tier, or a unary expression. */
  function Operand(ts: seq<Token>, p: nat, lvl: nat): (r: Result<Parsed<Expr>>)
    requires p <= Limit(ts) && lvl < Tiers
    ensures Progressed(ts, p, r)
    ensures r.Ok? ==> Stops(ts, r.value.pos, lvl + 1)
    decreases Limit(ts) - p, 9 + 2 * (Tiers - lvl)
  {
    if lvl + 1 < Tiers then Binary(ts, p, lvl + 1) else Unary(ts, p)
  }

  /** The `while (match(op))` loop of a tier. */
  function BinaryRest(ts: seq<Token>, p: nat, lvl: nat, left: Expr): (r: Result<Parsed<Expr>>)
    requires p <= Limit(ts) && lvl < Tiers
    requires Stops(ts, p, lvl + 1)
    ensures Advanced(ts, p, r)
    ensures r.Ok? ==> Stops(ts, r.value.pos, lvl)
    decreases Limit(ts) - p, 0
  {
    match OpOf(lvl, Peek(ts, p))
    case None => Ok(Parsed(left, p))
    case Some(op) =>
      var right :- Operand(ts, p + 1, lvl);
      BinaryRest(ts, right.pos, lvl, BinaryExpr(op, left, right.value))
  }

  /** `parseUnary`: a leading minus is a subtraction from zero. */
  function Unary(ts: seq<Token>, p: nat): (r: Result<Parsed<Expr>>)
    requires p <= Limit(ts)
    ensures Progressed(ts, p, r)
    ensures Match(ts, p, MINUS) ==> (r.Ok? <==> Unary(ts, p + 1).Ok?)
    ensures Match(ts, p, MINUS) && r.Ok? ==>
      r.value == Parsed(BinaryExpr('-', NumberExpr(0), Unary(ts, p + 1).value.value), Unary(ts, p + 1).value.pos)
    ensures !Match(ts, p, MINUS) ==> r == Postfix(ts, p)
    decreases Limit(ts) - p, 9
  {
    if Match(ts, p, MINUS) then
      var operand :- Unary(ts, p + 1);
      Ok(Parsed(BinaryExpr('-', NumberExpr(0), operand.value), operand.pos))
    else Postfix(ts, p)
  }

  predicate IsPostfix(k: Kind) {
    k == LBRACKET || k == DOT || k == LPAREN
  }

  /** `parsePostfix`: a primary, then indexing, field reads and method calls. */
  function Postfix(ts: seq<Token>, p: nat): (r: Result<Parsed<Expr>>)
    requires p <= Limit(ts)
    ensures Progressed(ts, p, r)
    ensures r.Ok? ==> !IsPostfix(Peek(ts, r.value.pos).kind)
    decreases Limit(ts) - p, 8
  {
    var e :- Primary(ts, p);
    PostfixRest(ts, e.pos, e.value)
  }

  function PostfixRest(ts: seq<Token>, p: nat, e: Expr): (r: Result<Parsed<Expr>>)
    requires p <= Limit(ts)
    ensures Advanced(ts, p, r)
    ensures r.Ok? ==> !IsPostfix(Peek(ts, r.value.pos).kind)
    ensures !IsPostfix(Peek(ts, p).kind) ==> r == Ok(Parsed(e, p))
    decreases Limit(ts) - p, 7
  {
    if Match(ts, p, LBRACKET) then
      var index :- Expression(ts, p + 1);
      var close :- Consume(ts, index.pos, RBRACKET, "Expected ']' after index");
      PostfixRest(ts, close.pos, IndexExpr(e, index.value))
    else if Match(ts, p, DOT) then
      var name :- Consume(ts, p + 1, IDENTIFIER, "Expected property name");
      PostfixRest(ts, name.pos, GetExpr(e, name.value))
    else if Match(ts, p, LPAREN) then
      if e.GetExpr? then
        var args :- ParenArgs(ts, p + 1, "Expected ')'");
        PostfixRest(ts, args.pos, MethodCallExpr(e.obj, e.name, args.value))
      else Err("Invalid call target.")
    else Ok(Parsed(e, p))
  }

  /** The literal a literal token stands for; `std::stoi` failing is the
      `std::invalid_argument` it throws, whose message is "stoi". */
  function Literal(t: Token): (r: Option<Result<Expr>>)
    ensures r.Some? ==> t.kind != EOF_TOKEN
  {
    match t.kind
    case TOKEN_NUM =>
      Some(match StoI(t.text) case Some(n) => Ok(NumberExpr(n)) case None => Err("stoi"))
    case TOKEN_FLOAT => Some(Ok(FloatExpr(t.text)))
    case STRING => Some(Ok(StringExpr(t.text)))
    case CHAR => Some(Ok(CharExpr(FirstChar(t.text))))
    case TRUE => Some(Ok(BoolExpr(true)))
    case FALSE => Some(Ok(BoolExpr(false)))
    case _ => None
  }

  /** `parsePrimary`. Its tests look at distinct token kinds, so the
      identifier case may be taken first. */
  function Primary(ts: seq<Token>, p: nat): (r: Result<Parsed<Expr>>)
    requires p <= Limit(ts)
    ensures Progressed(ts, p, r)
    decreases Limit(ts) - p, 6
  {
    var t := Peek(ts, p);
    if t.kind == IDENTIFIER then NameExpr(ts, p + 1, t.text) else Atom(ts, p)
  }

  /** The other cases of `parsePrimary`. */
  function Atom(ts: seq<Token>, p: nat): (r: Result<Parsed<Expr>>)
    requires p <= Limit(ts)
    ensures Progressed(ts, p, r)
    decreases Limit(ts) - p, 5
  {
    var t := Peek(ts, p);
    if Match(ts, p, THIS) then Ok(Parsed(ThisExpr, p + 1))
    else if Match(ts, p, NEW) then NewTail(ts, p + 1)
    else if Literal(t).Some? then
      var e :- Literal(t).value;
      Ok(Parsed(e, p + 1))
    else if Match(ts, p, LBRACKET) then ArrayTail(ts, p + 1)
    else if Match(ts, p, LBRACE) then DictTail(ts, p + 1)
    else if Match(ts, p, LPAREN) then
      var e :- Expression(ts, p + 1);
      var close :- Consume(ts, e.pos, RPAREN, "Butuh ')'");
      Ok(Parsed(e.value, close.pos))
    else Err("Unknown token: " + t.text)
  }

  /** After `new`: the class name and the parenthesised arguments. */
  function NewTail(ts: seq<Token>, p: nat): (r: Result<Parsed<Expr>>)
    requires p <= Limit(ts)
    ensures Advanced(ts, p, r)
    decreases Limit(ts) - p, 26
  {
    var name :- Consume(ts, p, IDENTIFIER, "Expected class name");
    var open :- Consume(ts, name.pos, LPAREN, "Expected '(' after class name");
    var args :- ParenArgs(ts, open.pos, "Expected ')' after arguments");
    Ok(Parsed(NewExpr(name.value, args.value), args.pos))
  }

  /** The word after a dot: `connect`, `clear` and `cls` are keywords the
      lexer turns into their own kinds, so they are accepted by kind. */
  function MethodName(ts: seq<Token>, p: nat): (r: Result<Parsed<string>>)
    requires p <= Limit(ts)
    ensures Progressed(ts, p, r)
  {
    if Match(ts, p, CONNECT) then Ok(Parsed("connect", p + 1))
    else if Match(ts, p, CLEAR) then Ok(Parsed("clear", p + 1))
    else if Match(ts, p, CLS) then Ok(Parsed("cls", p + 1))
    else Consume(ts, p, IDENTIFIER, "Expected method")
  }

  /** After an identifier in an expression: one `.word` is glued to the
      name, and a following `(` makes it a call by that name. */
  function NameExpr(ts: seq<Token>, p: nat, name: string): (r: Result<Parsed<Expr>>)
    requires p <= Limit(ts)
    ensures Advanced(ts, p, r)
    ensures Peek(ts, p).kind != DOT && Peek(ts, p).kind != LPAREN ==> r == Ok(Parsed(VariableExpr(name), p))
    decreases Limit(ts) - p, 28
  {
    var full :- if Match(ts, p, DOT) then
        var m :- MethodName(ts, p + 1);
        Ok(Parsed(name + "." + m.value, m.pos))
      else Ok(Parsed(name, p));
    if Peek(ts, full.pos).kind == LPAREN then
      var args :- Arguments(ts, full.pos);
      Ok(Parsed(CallExpr(full.value, args.value), args.pos))
    else Ok(Parsed(VariableExpr(full.value), full.pos))
  }

  /** `parseArguments`: nothing, or a parenthesised argument list. */
  function Arguments(ts: seq<Token>, p: nat): (r: Result<Parsed<seq<Expr>>>)
    requires p <= Limit(ts)
    ensures Advanced(ts, p, r)
    ensures !Match(ts, p, LPAREN) ==> r == Ok(Parsed([], p))
    decreases Limit(ts) - p, 27
  {
    if Match(ts, p, LPAREN) then ParenArgs(ts, p + 1, "Expected ')' after arguments")
    else Ok(Parsed([], p))
  }

  /** After `(`: comma-separated expressions unless the next token is `)`,
      then the `)`, whose absence is `err`. */
  function ParenArgs(ts: seq<Token>, p: nat, err: string): (r: Result<Parsed<seq<Expr>>>)
    requires p <= Limit(ts)
    ensures Progressed(ts, p, r)
    decreases Limit(ts) - p, 26
  {
    var items :- if Peek(ts, p).kind != RPAREN then ExprList(ts, p) else Ok(Parsed([], p));
    var close :- Consume(ts, items.pos, RPAREN, err);
    Ok(Parsed(items.value, close.pos))
  }

  /** `do { parseExpression } while (match(COMMA))`. */
  function ExprList(ts: seq<Token>, p: nat): (r: Result<Parsed<seq<Expr>>>)
    requires p <= Limit(ts)
    ensures Progressed(ts, p, r)
    ensures r.Ok? ==> |r.value.value| >= 1
    decreases Limit(ts) - p, 24
  {
    var e :- Expression(ts, p);
    if Match(ts, e.pos, COMMA) then
      var rest :- ExprList(ts, e.pos + 1);
      Ok(Parsed([e.value] + rest.value, rest.pos))
    else Ok(Parsed([e.value], e.pos))
  }

  /** After `[`: elements separated by commas, layout tokens ignored. */
  function ArrayTail(ts: seq<Token>, p: nat): (r: Result<Parsed<Expr>>)
    requires p <= Limit(ts)
    ensures Advanced(ts, p, r)
    decreases Limit(ts) - p, 25
  {
    var p1 := SkipLayout(ts, p);
    var items :- if Peek(ts, p1).kind != RBRACKET then ArrayItems(ts, p1) else Ok(Parsed([], p1));
    var close :- Consume(ts, SkipLayout(ts, items.pos), RBRACKET, "Expected ']'");
    Ok(Parsed(ArrayExpr(items.value), close.pos))
  }

  function ArrayItems(ts: seq<Token>, p: nat): (r: Result<Parsed<seq<Expr>>>)
    requires p <= Limit(ts)
    ensures Progressed(ts, p, r)
    decreases Limit(ts) - p, 24
  {
    var e :- Expression(ts, SkipLayout(ts, p));
    var q := SkipLayout(ts, e.pos);
    if Match(ts, q, COMMA) then
      var rest :- ArrayItems(ts, q + 1);
      Ok(Parsed([e.value] + rest.value, rest.pos))
    else Ok(Parsed([e.value], q))
  }

  /** After `{`: `key : value` pairs separated by commas, layout ignored. */
  function DictTail(ts: seq<Token>, p: nat): (r: Result<Parsed<Expr>>)
    requires p <= Limit(ts)
    ensures Advanced(ts, p, r)
    decreases Limit(ts) - p, 25
  {
    var p1 := SkipLayout(ts, p);
    var pairs :- if Peek(ts, p1).kind != RBRACE then DictPairs(ts, p1) else Ok(Parsed([], p1));
    var close :- Consume(ts, SkipLayout(ts, pairs.pos), RBRACE, "Expected '}'");
    Ok(Parsed(DictExpr(pairs.value), close.pos))
  }

  function DictPairs(ts: seq<Token>, p: nat): (r: Result<Parsed<seq<Pair>>>)
    requires p <= Limit(ts)
    ensures Progressed(ts, p, r)
    decreases Limit(ts) - p, 24
  {
    var key :- Expression(ts, SkipLayout(ts, p));
    var colon :- Consume(ts, key.pos, COLON, "Expected ':'");
    var value :- Expression(ts, SkipLayout(ts, colon.pos));
    var q := SkipLayout(ts, value.pos);
    if Match(ts, q, COMMA) then
      var rest :- DictPairs(ts, q + 1);
      Ok(Parsed([Pair(key.value, value.value)] + rest.value, rest.pos))
    else Ok(Parsed([Pair(key.value, value.value)], q))
  }

  // ---------------------------------------------------------------------
  // Statements
  // ---------------------------------------------------------------------

  /** The statement `parseStatement` returned, if it was not null. */
  function Keep(s: Option<Stmt>): (r: seq<Stmt>)
    ensures |r| <= 1 && (s.Some? ==> r == [s.value])
  {
    if s.Some? then [s.value] else []
  }

  /** A statement parse seen as a possibly-null one. */
  function Wrap(r: Result<Parsed<Stmt>>): (w: Result<Parsed<Option<Stmt>>>)
    ensures w.Ok? <==> r.Ok?
    ensures r.Ok? ==> w.value == Parsed(Some(r.value.value), r.value.pos)
  {
    match r
    case Ok(x) => Ok(Parsed(Some(x.value), x.pos))
    case Err(m) => Err(m)
  }

  /** `parseStatement`: dispatch on the first token. A token that starts no
      statement is skipped and yields null (`None`). */
  function Statement(ts: seq<Token>, p: nat): (r: Result<Parsed<Option<Stmt>>>)
    requires p <= Limit(ts)
    ensures Advanced(ts, p, r)
    ensures p < Limit(ts) ==> Progressed(ts, p, r)
    decreases Limit(ts) - p, 40
  {
    var t := Peek(ts, p);
    if AtEnd(ts, p) then Ok(Parsed(None, p))
    else if IsKeyword(t.kind) then Wrap(Keyword(ts, p + 1, t.kind))
    else if t.kind == IDENTIFIER then IdentStmt(ts, p + 1, t.text)
    else Ok(Parsed(None, p + 1))
  }

  /** The kinds that start a statement of their own. */
  predicate IsKeyword(k: Kind) {
    k in {CLEAR, CLS, CLASS, IMPORT, SET, APP, RETURN, FOR, WHILE, IF, WINDOW, FUNC, CONNECT, TRY, BREAK, CONTINUE, SH}
  }

  /** The statement a keyword starts, parsed from just after the keyword. */
  function Keyword(ts: seq<Token>, p: nat, k: Kind): (r: Result<Parsed<Stmt>>)
    requires p <= Limit(ts) && IsKeyword(k)
    ensures Advanced(ts, p, r)
    decreases Limit(ts) - p, 38
  {
    if k == CLEAR || k == CLS then Ok(Parsed(ClearStmt, p))
    else if k == BREAK then Ok(Parsed(BreakStmt, p))
    else if k == CONTINUE then Ok(Parsed(ContinueStmt, p))
    else if k == CLASS then Class(ts, p)
    else if k == IMPORT then Import(ts, p)
    else if k == SET then Set(ts, p)
    else if k == APP then App(ts, p)
    else if k == RETURN then Return(ts, p)
    else if k == FOR then For(ts, p)
    else if k == WHILE then While(ts, p)
    else if k == IF then If(ts, p)
    else if k == WINDOW then Window(ts, p)
    else if k == FUNC then FuncStmtAt(ts, p)
    else if k == CONNECT then Connect(ts, p)
    else if k == SH then Sh(ts, p)
    else Try(ts, p)
  }

  /** After `import`: a bare name gets the `.link` suffix, a string is taken
      as the path. */
  function Import(ts: seq<Token>, p: nat): (r: Result<Parsed<Stmt>>)
    requires p <= Limit(ts)
    ensures Progressed(ts, p, r)
    ensures r.Ok? ==> r.value.value.ImportStmt?
  {
    var t := Peek(ts, p);
    if t.kind == IDENTIFIER then Ok(Parsed(ImportStmt(t.text + ".link"), p + 1))
    else if t.kind == STRING then Ok(Parsed(ImportStmt(t.text), p + 1))
    else Err("Expected library name after 'import'")
  }

  /** After `sh`: a string command. */
  function Sh(ts: seq<Token>, p: nat): (r: Result<Parsed<Stmt>>)
    requires p <= Limit(ts)
    ensures Progressed(ts, p, r)
    ensures r.Ok? <==> Match(ts, p, STRING)
    ensures r.Ok? ==> r.value == Parsed(PropertyStmt("sh", ts[p].text), p + 1)
  {
    var command :- Consume(ts, p, STRING, "Error: 'sh' needs string");
    Ok(Parsed(PropertyStmt("sh", command.value), command.pos))
  }

  /** The names before a dot that are native modules: `name.word` is then
      one name, not a method call. */
  const Modules: set<string> := {"time", "math", "io", "os", "str", "list", "fs", "term", "dict", "net"}

  /** The head of a statement that starts with an identifier: a plain
      (possibly module-qualified) name, or an object and a method name. */
  datatype Callee = Plain(name: string) | Member(obj: string, methodName: string)
  {
    /** The name assignments and increments use. */
    function FullName(): string {
      match this
      case Plain(n) => n
      case Member(o, m) => o + "." + m
    }

    /** The name a call without parentheses uses: the object alone. */
    function Head(): string {
      match this
      case Plain(n) => n
      case Member(o, _) => o
    }
  }

  function CalleeAt(ts: seq<Token>, p: nat, name: string): (r: Result<Parsed<Callee>>)
    requires p <= Limit(ts)
    ensures Advanced(ts, p, r)
    ensures r.Ok? && r.value.value.Member? ==> name !in Modules && r.value.value.obj == name
  {
    if Match(ts, p, DOT) then
      var m :- MethodName(ts, p + 1);
      Ok(Parsed(if name in Modules then Plain(name + "." + m.value) else Member(name, m.value), m.pos))
    else Ok(Parsed(Plain(name), p))
  }

  /** The identifier branch of `parseStatement`, after the identifier. */
  function IdentStmt(ts: seq<Token>, p: nat, name: string): (r: Result<Parsed<Option<Stmt>>>)
    requires p <= Limit(ts)
    ensures Advanced(ts, p, r)
    ensures r.Ok? ==> r.value.value.Some?
    ensures !IsPostfix(Peek(ts, p).kind) && Peek(ts, p).kind != ASSIGN && Peek(ts, p).kind != PLUS_PLUS && name != "print"
      ==> r == Ok(Parsed(Some(CallStmt(name, [])), p))
    decreases Limit(ts) - p, 35
  {
    var c :- CalleeAt(ts, p, name);
    var q := c.pos;
    if Match(ts, q, ASSIGN) then
      var v :- Expression(ts, q + 1);
      Ok(Parsed(Some(SetStmt(c.value.FullName(), v.value)), v.pos))
    else if Match(ts, q, PLUS_PLUS) then
      Ok(Parsed(Some(UpdateStmt(c.value.FullName(), "++")), q + 1))
    else if c.value == Plain("print") then
      var args :- if Peek(ts, q).kind == LPAREN then Arguments(ts, q)
        else var e :- Expression(ts, q); Ok(Parsed([e.value], e.pos));
      Ok(Parsed(Some(CallStmt("print", args.value)), args.pos))
    else if Peek(ts, q).kind == LPAREN then
      var args :- Arguments(ts, q);
      var s := match c.value
        case Member(o, m) => ExprStmt(MethodCallExpr(VariableExpr(o), m, args.value))
        case Plain(n) => CallStmt(n, args.value);
      Ok(Parsed(Some(s), args.pos))
    else Ok(Parsed(Some(CallStmt(c.value.Head(), [])), q))
  }

  /** The operator a compound assignment applies. */
  function CompoundOp(k: Kind): char {
    if k == MINUS_EQ then '-' else if k == STAR_EQ then '*' else if k == SLASH_EQ then '/' else '+'
  }

  predicate IsAssignOp(k: Kind) {
    k == ASSIGN || k == PLUS_EQ || k == MINUS_EQ || k == STAR_EQ || k == SLASH_EQ
  }

  /** The place a `set`-built statement writes, as the expression that
      reads it, and the value it writes. */
  function Target(s: Stmt): Option<Expr> {
    match s
    case SetStmt(n, _) => Some(VariableExpr(n))
    case ExprStmt(SetExpr(o, n, _)) => Some(GetExpr(o, n))
    case SetIndexStmt(o, i, _) => Some(IndexExpr(o, i))
    case _ => None
  }

  function Written(s: Stmt): Option<Expr> {
    match s
    case SetStmt(_, v) => Some(v)
    case ExprStmt(SetExpr(_, _, v)) => Some(v)
    case SetIndexStmt(_, _, v) => Some(v)
    case _ => None
  }

  /** The statement `set target op value` builds: it writes exactly the
      place `target` reads; a compound operator writes `target op value`
      and is accepted for a variable only. */
  function SetTarget(target: Expr, op: Kind, value: Expr): (r: Result<Stmt>)
    requires IsAssignOp(op)
    ensures r.Ok? <==> target.VariableExpr? || (op == ASSIGN && (target.GetExpr? || target.IndexExpr?))
    ensures r.Ok? ==> Target(r.value) == Some(target)
    ensures r.Ok? ==> Written(r.value) == Some(if op == ASSIGN then value else BinaryExpr(CompoundOp(op), target, value))
  {
    var v :- if op == ASSIGN then Ok(value)
      else if target.VariableExpr? then Ok(BinaryExpr(CompoundOp(op), VariableExpr(target.name), value))
      else Err("Compound assignment currently supports simple variables only.");
    if target.VariableExpr? then Ok(SetStmt(target.name, v))
    else if target.GetExpr? then Ok(ExprStmt(SetExpr(target.obj, target.name, v)))
    else if target.IndexExpr? then Ok(SetIndexStmt(target.obj, target.index, v))
    else Err("Invalid assignment target.")
  }

  /** `parseSet`. */
  function Set(ts: seq<Token>, p: nat): (r: Result<Parsed<Stmt>>)
    requires p <= Limit(ts)
    ensures Progressed(ts, p, r)
    decreases Limit(ts) - p, 30
  {
    var target :- Postfix(ts, p);
    var op := Peek(ts, target.pos).kind;
    if !IsAssignOp(op) then Err("Expected assignment operator ('=', '+=', '-=', etc)")
    else
      NotAtEnd(ts, target.pos);
      var value :- Expression(ts, target.pos + 1);
      var s :- SetTarget(target.value, op, value.value);
      Ok(Parsed(s, value.pos))
  }

  /** The messages and the blank-line handling of one block form. */
  datatype BlockStyle = BlockStyle(closeBrace: string, newline: string, indent: string, skipNewlines: bool)

  const WhileStyle := BlockStyle("Expected '}' after while block", "Expected newline after while condition", "Expected indent", true)
  const IfStyle := BlockStyle("Expected '}' after if block", "Expected newline after if condition", "Expected indent", true)
  const ElseStyle := BlockStyle("Expected '}' after else block", "Expected newline after else", "Expected indent", true)
  const ForStyle := BlockStyle("Expected '}' after for block", "Expected newline", "Expected indent", true)
  const FuncStyle := BlockStyle("Expected '}'", "Expected newline", "Expected indent", false)

  /** A hybrid block: `{ … }`, or NEWLINE INDENT … DEDENT. */
  function Block(ts: seq<Token>, p: nat, style: BlockStyle): (r: Result<Parsed<seq<Stmt>>>)
    requires p <= Limit(ts)
    ensures Progressed(ts, p, r)
    ensures Match(ts, p, LBRACE) && r.Ok? ==>
      BraceBody(ts, p + 1, true).Ok? && r.value.value == BraceBody(ts, p + 1, true).value.value
    ensures !Match(ts, p, LBRACE) && r.Ok? ==>
      Match(ts, p, NEWLINE) && Match(ts, p + 1, INDENT) && r == IndentBody(ts, p + 2, style.skipNewlines)
    decreases Limit(ts) - p, 44
  {
    if Match(ts, p, LBRACE) then
      var body :- BraceBody(ts, p + 1, true);
      var close :- Consume(ts, body.pos, RBRACE, style.closeBrace);
      Ok(Parsed(body.value, close.pos))
    else if !Match(ts, p, NEWLINE) then Err(style.newline)
    else if !Match(ts, p + 1, INDENT) then Err(style.indent)
    else IndentBody(ts, p + 2, style.skipNewlines)
  }

  /** Statements up to a `}` or the end; with `skip`, layout tokens between
      them are passed over. */
  function BraceBody(ts: seq<Token>, p: nat, skip: bool): (r: Result<Parsed<seq<Stmt>>>)
    requires p <= Limit(ts)
    ensures Advanced(ts, p, r)
    ensures r.Ok? ==> Peek(ts, r.value.pos).kind == RBRACE || AtEnd(ts, r.value.pos)
    decreases Limit(ts) - p, 45
  {
    if Peek(ts, p).kind == RBRACE || AtEnd(ts, p) then Ok(Parsed([], p))
    else if skip && IsLayout(ts[p].kind) then BraceBody(ts, p + 1, skip)
    else match Statement(ts, p)
      case Err(m) => Err(m)
      case Ok(s) =>
        match BraceBody(ts, s.pos, skip)
        case Err(m) => Err(m)
        case Ok(rest) => Ok(Parsed(Keep(s.value) + rest.value, rest.pos))
  }

  /** Statements up to a DEDENT, which is consumed, or the end; with `skip`,
      NEWLINE tokens between them are passed over. */
  function IndentBody(ts: seq<Token>, p: nat, skip: bool): (r: Result<Parsed<seq<Stmt>>>)
    requires p <= Limit(ts)
    ensures Advanced(ts, p, r)
    decreases Limit(ts) - p, 45
  {
    if Match(ts, p, DEDENT) then Ok(Parsed([], p + 1))
    else if AtEnd(ts, p) then Ok(Parsed([], p))
    else if skip && ts[p].kind == NEWLINE then IndentBody(ts, p + 1, skip)
    else match Statement(ts, p)
      case Err(m) => Err(m)
      case Ok(s) =>
        match IndentBody(ts, s.pos, skip)
        case Err(m) => Err(m)
        case Ok(rest) => Ok(Parsed(Keep(s.value) + rest.value, rest.pos))
  }

  /** `parseWhile`. */
  function While(ts: seq<Token>, p: nat): (r: Result<Parsed<Stmt>>)
    requires p <= Limit(ts)
    ensures Progressed(ts, p, r)
    ensures r.Ok? <==> Expression(ts, p).Ok? && Block(ts, Expression(ts, p).value.pos, WhileStyle).Ok?
    ensures r.Ok? ==>
      var c := Expression(ts, p).value;
      var b := Block(ts, c.pos, WhileStyle).value;
      r.value == Parsed(WhileStmt(c.value, b.value), b.pos)
    decreases Limit(ts) - p, 30
  {
    var cond :- Expression(ts, p);
    var body :- Block(ts, cond.pos, WhileStyle);
    Ok(Parsed(WhileStmt(cond.value, body.value), body.pos))
  }

  /** `parseIf`. */
  function If(ts: seq<Token>, p: nat): (r: Result<Parsed<Stmt>>)
    requires p <= Limit(ts)
    ensures Progressed(ts, p, r)
    ensures r.Ok? ==> r.value.value.IfStmt?
    ensures r.Ok? <==>
      && Expression(ts, p).Ok?
      && Block(ts, Expression(ts, p).value.pos, IfStyle).Ok?
      && ElseBranch(ts, SkipNewlines(ts, Block(ts, Expression(ts, p).value.pos, IfStyle).value.pos)).Ok?
    ensures r.Ok? ==>
      var c := Expression(ts, p).value;
      var t := Block(ts, c.pos, IfStyle).value;
      var e := ElseBranch(ts, SkipNewlines(ts, t.pos)).value;
      r.value == Parsed(IfStmt(c.value, t.value, e.value), e.pos)
    decreases Limit(ts) - p, 30
  {
    var cond :- Expression(ts, p);
    var then_ :- Block(ts, cond.pos, IfStyle);
    var else_ :- ElseBranch(ts, SkipNewlines(ts, then_.pos));
    Ok(Parsed(IfStmt(cond.value, then_.value, else_.value), else_.pos))
  }

  /** What follows a then-branch: `elif` is a conditional that is the whole
      else-branch, `else` a block, and anything else no else-branch. */
  function ElseBranch(ts: seq<Token>, p: nat): (r: Result<Parsed<seq<Stmt>>>)
    requires p <= Limit(ts)
    ensures Advanced(ts, p, r)
    decreases Limit(ts) - p, 31
  {
    if Match(ts, p, ELIF) then
      var nested :- If(ts, p + 1);
      Ok(Parsed([nested.value], nested.pos))
    else if Match(ts, p, ELSE) then Block(ts, p + 1, ElseStyle)
    else Ok(Parsed([], p))
  }

  /** `elif` yields a single conditional as the else-branch; a then-branch
      followed by neither `elif` nor `else` has an empty else-branch and
      leaves the cursor where it is. */
  lemma ElseForms(ts: seq<Token>, p: nat)
    requires p <= Limit(ts)
    ensures Match(ts, p, ELIF) && ElseBranch(ts, p).Ok? ==>
      |ElseBranch(ts, p).value.value| == 1 && ElseBranch(ts, p).value.value[0].IfStmt?
    ensures !Match(ts, p, ELIF) && !Match(ts, p, ELSE) ==> ElseBranch(ts, p) == Ok(Parsed([], p))
  {
  }

  /** `parseFor`. */
  function For(ts: seq<Token>, p: nat): (r: Result<Parsed<Stmt>>)
    requires p <= Limit(ts)
    ensures Progressed(ts, p, r)
    ensures r.Ok? ==> p + 1 < Limit(ts) && ts[p].kind == IDENTIFIER && ts[p + 1].kind == IN
    ensures r.Ok? ==> r.value.value.ForStmt? && r.value.value.iteratorName == ts[p].text
    ensures r.Ok? ==>
      && Expression(ts, p + 2).Ok?
      && var c := Expression(ts, p + 2).value;
      && Block(ts, c.pos, ForStyle).Ok?
      && var b := Block(ts, c.pos, ForStyle).value;
      r.value == Parsed(ForStmt(ts[p].text, c.value, b.value), b.pos)
    ensures Match(ts, p, IDENTIFIER) && Match(ts, p + 1, IN) && Expression(ts, p + 2).Ok? ==>
      (Block(ts, Expression(ts, p + 2).value.pos, ForStyle).Ok? ==> r.Ok?)
    decreases Limit(ts) - p, 30
  {
    var iter :- Consume(ts, p, IDENTIFIER, "Expected iterator variable");
    var _ :- Consume(ts, p + 1, IN, "Expected 'in' after iterator");
    var coll :- Expression(ts, p + 2);
    var body :- Block(ts, coll.pos, ForStyle);
    Ok(Parsed(ForStmt(iter.value, coll.value, body.value), body.pos))
  }

  /** `parseWindow`. */
  function Window(ts: seq<Token>, p: nat): (r: Result<Parsed<Stmt>>)
    requires p <= Limit(ts)
    ensures Progressed(ts, p, r)
    ensures r.Ok? ==> p < Limit(ts) && ts[p].kind == IDENTIFIER
    ensures r.Ok? ==> r.value.value.WindowDecl? && r.value.value.name == ts[p].text
    decreases Limit(ts) - p, 30
  {
    var name :- Consume(ts, p, IDENTIFIER, "Expected window name");
    var nl :- Consume(ts, name.pos, NEWLINE, "Expected newline");
    var ind :- Consume(ts, nl.pos, INDENT, "Expected indent");
    var body :- IndentBody(ts, ind.pos, false);
    Ok(Parsed(WindowDecl(name.value, body.value), body.pos))
  }

  /** `parseApp`: the name may be a word or a string. */
  function App(ts: seq<Token>, p: nat): (r: Result<Parsed<Stmt>>)
    requires p <= Limit(ts)
    ensures Progressed(ts, p, r)
    ensures r.Ok? ==> p < Limit(ts) && ts[p].kind in {IDENTIFIER, STRING}
    ensures r.Ok? ==> r.value.value.AppDecl? && r.value.value.name == ts[p].text
    decreases Limit(ts) - p, 30
  {
    var t := Peek(ts, p);
    if t.kind != IDENTIFIER && t.kind != STRING then Err("Error: App-name must be word")
    else
      NotAtEnd(ts, p);
      var nl :- Consume(ts, p + 1, NEWLINE, "Newline needed");
      var ind :- Consume(ts, nl.pos, INDENT, "Indent needed");
      var body :- IndentBody(ts, ind.pos, false);
      Ok(Parsed(AppDecl(t.text, body.value), body.pos))
  }

  /** `parseFunc`: `init` or a name, optional parameters, a block. */
  function Func(ts: seq<Token>, p: nat): (r: Result<Parsed<FuncDecl>>)
    requires p <= Limit(ts)
    ensures Progressed(ts, p, r)
    ensures r.Ok? && Match(ts, p, INIT) ==> r.value.value.name == "init"
    ensures r.Ok? && !Match(ts, p, INIT) ==> p < Limit(ts) && ts[p].kind == IDENTIFIER && r.value.value.name == ts[p].text
    ensures r.Ok? ==>
      && FuncParams(ts, p + 1).Ok?
      && var ps := FuncParams(ts, p + 1).value;
      && Block(ts, ps.pos, FuncStyle).Ok?
      && var b := Block(ts, ps.pos, FuncStyle).value;
      r.value.value.params == ps.value && r.value.value.body == b.value && r.value.pos == b.pos
    ensures (Match(ts, p, INIT) || Match(ts, p, IDENTIFIER)) && FuncParams(ts, p + 1).Ok? ==>
      (Block(ts, FuncParams(ts, p + 1).value.pos, FuncStyle).Ok? ==> r.Ok?)
    decreases Limit(ts) - p, 30
  {
    var name :- if Match(ts, p, INIT) then Ok(Parsed("init", p + 1))
      else Consume(ts, p, IDENTIFIER, "Expected func name");
    var params :- FuncParams(ts, name.pos);
    var body :- Block(ts, params.pos, FuncStyle);
    Ok(Parsed(FuncDecl(name.value, params.value, body.value), body.pos))
  }

  /** The optional parameter list after a function's name: none without
      a `(`. */
  function FuncParams(ts: seq<Token>, p: nat): (r: Result<Parsed<seq<string>>>)
    requires p <= Limit(ts)
    ensures Advanced(ts, p, r)
    ensures !Match(ts, p, LPAREN) ==> r == Ok(Parsed([], p))
    ensures Match(ts, p, LPAREN) ==> r == Params(ts, p + 1)
  {
    if Match(ts, p, LPAREN) then Params(ts, p + 1) else Ok(Parsed([], p))
  }

  function FuncStmtAt(ts: seq<Token>, p: nat): (r: Result<Parsed<Stmt>>)
    requires p <= Limit(ts)
    ensures Progressed(ts, p, r)
    decreases Limit(ts) - p, 31
  {
    var f :- Func(ts, p);
    Ok(Parsed(FuncStmt(f.value), f.pos))
  }

  /** After `(` of a parameter list: names separated by commas, then `)`. */
  function Params(ts: seq<Token>, p: nat): (r: Result<Parsed<seq<string>>>)
    requires p <= Limit(ts)
    ensures Progressed(ts, p, r)
  {
    var names :- if Peek(ts, p).kind != RPAREN then Names(ts, p) else Ok(Parsed([], p));
    var close :- Consume(ts, names.pos, RPAREN, "Expected ')'");
    Ok(Parsed(names.value, close.pos))
  }

  function Names(ts: seq<Token>, p: nat): (r: Result<Parsed<seq<string>>>)
    requires p <= Limit(ts)
    ensures Progressed(ts, p, r)
    ensures r.Ok? ==> |r.value.value| >= 1 && ts[p].kind == IDENTIFIER && r.value.value[0] == ts[p].text
    decreases Limit(ts) - p
  {
    var n :- Consume(ts, p, IDENTIFIER, "Expected param");
    if Match(ts, n.pos, COMMA) then
      var rest :- Names(ts, n.pos + 1);
      Ok(Parsed([n.value] + rest.value, rest.pos))
    else Ok(Parsed([n.value], n.pos))
  }

  /** `parseClass`: a name and a brace block whose `func` members are the
      methods; every other token in it is skipped. */
  function Class(ts: seq<Token>, p: nat): (r: Result<Parsed<Stmt>>)
    requires p <= Limit(ts)
    ensures Progressed(ts, p, r)
    ensures r.Ok? ==> p + 1 < Limit(ts) && ts[p].kind == IDENTIFIER && ts[p + 1].kind == LBRACE
    ensures r.Ok? ==> r.value.value.ClassDecl? && r.value.value.name == ts[p].text
    decreases Limit(ts) - p, 30
  {
    var name :- Consume(ts, p, IDENTIFIER, "Expected class name");
    var open :- Consume(ts, name.pos, LBRACE, "Expected '{'");
    var methods :- Members(ts, open.pos);
    var close :- Consume(ts, methods.pos, RBRACE, "Expected '}'");
    Ok(Parsed(ClassDecl(name.value, methods.value), close.pos))
  }

  function Members(ts: seq<Token>, p: nat): (r: Result<Parsed<seq<FuncDecl>>>)
    requires p <= Limit(ts)
    ensures Advanced(ts, p, r)
    decreases Limit(ts) - p, 45
  {
    if Peek(ts, p).kind == RBRACE || AtEnd(ts, p) then Ok(Parsed([], p))
    else if Match(ts, p, FUNC) then
      var f :- Func(ts, p + 1);
      var rest :- Members(ts, f.pos);
      Ok(Parsed([f.value] + rest.value, rest.pos))
    else Members(ts, p + 1)
  }

  /** `parseConnect`: `source.event -> target`. */
  function Connect(ts: seq<Token>, p: nat): (r: Result<Parsed<Stmt>>)
    requires p <= Limit(ts)
    ensures Progressed(ts, p, r)
    ensures r.Ok? ==>
      && p + 4 < Limit(ts) && ts[p].kind == IDENTIFIER && ts[p + 1].kind == DOT
      && ts[p + 2].kind == IDENTIFIER && ts[p + 3].kind == ARROW && ts[p + 4].kind == IDENTIFIER
    ensures r.Ok? ==> r.value == Parsed(ConnectStmt(ts[p].text, ts[p + 2].text, ts[p + 4].text), p + 5)
  {
    var source :- Consume(ts, p, IDENTIFIER, "Expected source");
    var dot :- Consume(ts, source.pos, DOT, "Expected dot");
    var event :- Consume(ts, dot.pos, IDENTIFIER, "Expected event");
    var arrow :- Consume(ts, event.pos, ARROW, "Expected arrow");
    var target :- Consume(ts, arrow.pos, IDENTIFIER, "Expected target");
    Ok(Parsed(ConnectStmt(source.value, event.value, target.value), target.pos))
  }

  /** The kinds before which a `return` has no value. */
  const ReturnEnds: set<Kind> := {NEWLINE, DEDENT, EOF_TOKEN, RBRACE}

  /** `parseReturn`, corrected: no value before NEWLINE, DEDENT, the end or
      a `}`; one trailing NEWLINE is consumed. The C++ does not list `}`
      (see `ParserFacts.ReturnAsWritten`), so there the token stream
      LBRACE RETURN RBRACE is an error while the same body written by
      indentation parses. */
  function Return(ts: seq<Token>, p: nat): (r: Result<Parsed<Stmt>>)
    requires p <= Limit(ts)
    ensures Advanced(ts, p, r)
    ensures r.Ok? ==> r.value.value.ReturnStmt?
    ensures r.Ok? ==> (r.value.value.result.None? <==> Peek(ts, p).kind in ReturnEnds)
    ensures Peek(ts, p).kind in ReturnEnds ==>
      r == Ok(Parsed(ReturnStmt(None), if Match(ts, p, NEWLINE) then p + 1 else p))
    decreases Limit(ts) - p, 30
  {
    ReturnTail(ts, p, Peek(ts, p).kind in ReturnEnds)
  }

  /** The rest of `parseReturn` once it is decided whether a value
      follows: none when `bare`, else the expression at `p`; then one
      trailing NEWLINE is consumed. */
  function ReturnTail(ts: seq<Token>, p: nat, bare: bool): (r: Result<Parsed<Stmt>>)
    requires p <= Limit(ts)
    ensures Advanced(ts, p, r)
    ensures r.Ok? ==> r.value.value.ReturnStmt? && (r.value.value.result.None? <==> bare)
    ensures bare ==> r == Ok(Parsed(ReturnStmt(None), if Match(ts, p, NEWLINE) then p + 1 else p))
    ensures !bare ==> (r.Ok? <==> Expression(ts, p).Ok?)
    decreases Limit(ts) - p, 29
  {
    var value :- if !bare then
        var e :- Expression(ts, p); Ok(Parsed(Some(e.value), e.pos))
      else Ok(Parsed(None, p));
    var q := if !AtEnd(ts, value.pos) && Peek(ts, value.pos).kind == NEWLINE then value.pos + 1 else value.pos;
    Ok(Parsed(ReturnStmt(value.value), q))
  }

  /** `parseTry`: `{ … } catch ( name ) { … }`. */
  function Try(ts: seq<Token>, p: nat): (r: Result<Parsed<Stmt>>)
    requires p <= Limit(ts)
    ensures Progressed(ts, p, r)
    ensures r.Ok? ==> p < Limit(ts) && ts[p].kind == LBRACE && r.value.value.TryStmt?
    decreases Limit(ts) - p, 30
  {
    var open :- Consume(ts, p, LBRACE, "Expected '{'");
    var body :- BraceBody(ts, open.pos, false);
    var close :- Consume(ts, body.pos, RBRACE, "Expected '}'");
    var handler :- CatchClause(ts, close.pos);
    Ok(Parsed(TryStmt(body.value, handler.value.1, handler.value.0), handler.pos))
  }

  /** `catch ( name ) { … }`: the error variable and the handler body. */
  function CatchClause(ts: seq<Token>, p: nat): (r: Result<Parsed<(string, seq<Stmt>)>>)
    requires p <= Limit(ts)
    ensures Progressed(ts, p, r)
    ensures r.Ok? ==> p + 2 < Limit(ts) && ts[p].kind == CATCH && ts[p + 2].kind == IDENTIFIER && r.value.value.0 == ts[p + 2].text
    decreases Limit(ts) - p, 46
  {
    var kw :- Consume(ts, p, CATCH, "Expected 'catch'");
    var lp :- Consume(ts, kw.pos, LPAREN, "Expected '('");
    var name :- Consume(ts, lp.pos, IDENTIFIER, "Expected var");
    var rp :- Consume(ts, name.pos, RPAREN, "Expected ')'");
    var open :- Consume(ts, rp.pos, LBRACE, "Expected '{'");
    var body :- BraceBody(ts, open.pos, false);
    var close :- Consume(ts, body.pos, RBRACE, "Expected '}'");
    Ok(Parsed((name.value, body.value), close.pos))
  }

  // ---------------------------------------------------------------------
  // The program
  // ---------------------------------------------------------------------

  /** The loop of `parse`: statements up to the end, nulls dropped. */
  function Statements(ts: seq<Token>, p: nat): (r: Result<Parsed<seq<Stmt>>>)
    requires p <= Limit(ts)
    ensures r.Ok? ==> r.value.pos == Limit(ts)
    decreases Limit(ts) - p, 45
  {
    if AtEnd(ts, p) then Ok(Parsed([], p))
    else
      var s :- Statement(ts, p);
      var rest :- Statements(ts, s.pos);
      Ok(Parsed(Keep(s.value) + rest.value, rest.pos))
  }

  /** `Parser::parse`. */
  function Parse(ts: seq<Token>): (r: Result<Program>)
    ensures r.Ok? <==> Statements(ts, 0).Ok?
    ensures r.Ok? ==> AtEnd(ts, Statements(ts, 0).value.pos) && r.value.statements == Statements(ts, 0).value.value
    ensures Limit(ts) == 0 ==> r == Ok(Program([]))
  {
    var body :- Statements(ts, 0);
    Ok(Program(body.value))
  }

  /** Lexing then parsing a source text, as `import` does. */
  function ParseSource(src: string): (r: Result<Program>)
    ensures Lexer.Tokenize(src).Err? ==> r == Err(Lexer.Tokenize(src).msg)
    ensures Lexer.Tokenize(src).Ok? ==> r == Parse(Lexer.Tokenize(src).value)
  {
    var ts :- Lexer.Tokenize(src);
    Parse(ts)
  }
}
