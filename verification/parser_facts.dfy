/** What the parsers of `src/parser.cpp` promise, stated over the model of
    `parser.dfy`: every binary tier folds to the left, no token is an
    operator of two tiers, a compound assignment is a plain one with the
    operator spelled out, and a block written with braces parses to the
    same statements as the block written by indentation. */
module ParserFacts {

  import opened Results
  import opened Tokens
  import opened Ast
  import opened Parser

  // ---------------------------------------------------------------------
  // Binary tiers are left-associative
  // ---------------------------------------------------------------------

  /** One `op operand` step of a tier's loop and the cursor after it. */
  datatype Link = Link(op: char, operand: Expr, end: nat)

  /** From `p`, the loop of tier `lvl` reads exactly `links` and stops at `q`. */
  ghost predicate Chain(ts: seq<Token>, p: nat, lvl: nat, links: seq<Link>, q: nat)
    decreases |links|
  {
    p <= Limit(ts) && lvl < Tiers &&
    if |links| == 0 then q == p && OpOf(lvl, Peek(ts, p)).None?
    else
      p < Limit(ts)
      && OpOf(lvl, Peek(ts, p)) == Some(links[0].op)
      && Operand(ts, p + 1, lvl) == Ok(Parsed(links[0].operand, links[0].end))
      && Chain(ts, links[0].end, lvl, links[1..], q)
  }

  /** The left fold: `((left op1 e1) op2 e2) …`. */
  function FoldLeft(left: Expr, links: seq<Link>): Expr
    decreases |links|
  {
    if |links| == 0 then left
    else FoldLeft(BinaryExpr(links[0].op, left, links[0].operand), links[1..])
  }

  lemma {:induction false} BinaryRestFolds(ts: seq<Token>, p: nat, lvl: nat, left: Expr, links: seq<Link>, q: nat)
    requires Chain(ts, p, lvl, links, q) && Stops(ts, p, lvl + 1)
    ensures BinaryRest(ts, p, lvl, left) == Ok(Parsed(FoldLeft(left, links), q))
    decreases |links|
  {
    if |links| > 0 {
      BinaryRestFolds(ts, links[0].end, lvl, BinaryExpr(links[0].op, left, links[0].operand), links[1..], q);
    }
  }

  /** A tier's expression `a op1 b op2 c …` is the left fold of its
      operands: `a or b or c` is `('|' ('|' a b) c)`. */
  lemma BinaryFoldsLeft(ts: seq<Token>, p: nat, lvl: nat, first: Expr, p0: nat, links: seq<Link>, q: nat)
    requires p <= Limit(ts) && lvl < Tiers
    requires Operand(ts, p, lvl) == Ok(Parsed(first, p0))
    requires Chain(ts, p0, lvl, links, q)
    ensures Binary(ts, p, lvl) == Ok(Parsed(FoldLeft(first, links), q))
  {
    BinaryRestFolds(ts, p0, lvl, first, links, q);
  }

  /** The tiers partition the operator tokens: no token is an operator of
      two tiers, so `and` (AND) and `&` (BIT_AND) stay apart. */
  lemma TiersDisjoint(i: nat, j: nat, t: Token)
    requires OpOf(i, t).Some? && OpOf(j, t).Some?
    ensures i == j
  {
  }

  // ---------------------------------------------------------------------
  // Desugaring
  // ---------------------------------------------------------------------

  /** `set x op= v` is `set x = x op v`. */
  lemma CompoundIsAssign(x: string, op: Kind, v: Expr)
    requires IsAssignOp(op) && op != ASSIGN
    ensures SetTarget(VariableExpr(x), op, v)
         == SetTarget(VariableExpr(x), ASSIGN, BinaryExpr(CompoundOp(op), VariableExpr(x), v))
  {
  }

  /** A postfix expression followed by no operator is a whole expression
      of every tier. */
  lemma {:induction false} LoneOperand(ts: seq<Token>, p: nat, lvl: nat, e: Expr, q: nat)
    requires p <= Limit(ts) && lvl < Tiers && !Match(ts, p, MINUS)
    requires Postfix(ts, p) == Ok(Parsed(e, q)) && Stops(ts, q, lvl)
    ensures Binary(ts, p, lvl) == Ok(Parsed(e, q))
    decreases Tiers - lvl
  {
    if lvl + 1 < Tiers {
      LoneOperand(ts, p, lvl + 1, e, q);
    } else {
      assert Unary(ts, p) == Postfix(ts, p);
    }
    assert Operand(ts, p, lvl) == Ok(Parsed(e, q));
    RestStops(ts, q, lvl, e);
  }

  /** With no operator of the tier under the cursor, its loop stops at once. */
  lemma RestStops(ts: seq<Token>, q: nat, lvl: nat, e: Expr)
    requires q <= Limit(ts) && lvl < Tiers && Stops(ts, q, lvl)
    ensures BinaryRest(ts, q, lvl, e) == Ok(Parsed(e, q))
  {
    assert OpOf(lvl, Peek(ts, q)).None?;
  }

  /** A token that starts no statement (a layout token, a stray `}`) is
      passed over as a null statement: the layout skipping of the block
      loops changes no block's statements. */
  lemma NoStatement(ts: seq<Token>, p: nat)
    requires p < Limit(ts) && !IsKeyword(ts[p].kind) && ts[p].kind != IDENTIFIER
    ensures Statement(ts, p) == Ok(Parsed(None, p + 1))
  {
  }
  // ---------------------------------------------------------------------
  // Hybrid blocks: braces and indentation
  // ---------------------------------------------------------------------

  /** The statements of a block body read one after another from `p` up to
      exactly `q`, nulls dropped, in a block that a token of kind `closer`
      ends: layout tokens are passed over. `None` when a statement fails
      or reads past `q`, or a closer comes first. */
  function Run(ts: seq<Token>, p: nat, q: nat, closer: Kind): Option<seq<Stmt>>
    requires p <= q <= Limit(ts)
    decreases q - p
  {
    if p == q then Some([])
    else if ts[p].kind == closer then None
    else if IsLayout(ts[p].kind) then Run(ts, p + 1, q, closer)
    else match Statement(ts, p)
      case Err(_) => None
      case Ok(s) =>
        if s.pos > q then None
        else match Run(ts, s.pos, q, closer)
          case None => None
          case Some(rest) => Some(Keep(s.value) + rest)
  }

  /** The loop of a brace block reads exactly the run of statements before
      the `}`, whether or not it skips layout tokens itself. */
  lemma {:induction false} BraceRun(ts: seq<Token>, p: nat, q: nat, skip: bool)
    requires p <= q <= Limit(ts) && Peek(ts, q).kind == RBRACE
    requires Run(ts, p, q, RBRACE).Some?
    ensures BraceBody(ts, p, skip) == Ok(Parsed(Run(ts, p, q, RBRACE).value, q))
    decreases q - p
  {
    if p < q {
      if IsLayout(ts[p].kind) {
        RunLayout(ts, p, q, RBRACE);
        BraceRun(ts, p + 1, q, skip);
        BracePassesLayout(ts, p, skip);
      } else {
        var st, rest := RunHead(ts, p, q, RBRACE);
        BraceRun(ts, st.pos, q, skip);
        BraceStatement(ts, p, q, skip, st, rest);
      }
    }
  }

  /** A layout token adds nothing to a brace body, whether it is skipped
      or read as a null statement. */
  lemma BracePassesLayout(ts: seq<Token>, p: nat, skip: bool)
    requires p < Limit(ts) && IsLayout(ts[p].kind)
    ensures BraceBody(ts, p + 1, skip).Ok? ==> BraceBody(ts, p, skip) == BraceBody(ts, p + 1, skip)
  {
    if skip {
      BraceSkip(ts, p);
    } else if BraceBody(ts, p + 1, skip).Ok? {
      var rest := BraceBody(ts, p + 1, skip);
      LayoutIsNull(ts, p);
      Eta(rest);
      BraceStep(ts, p, skip, Parsed(None, p + 1), rest.value.value, rest.value.pos);
      Null(BraceBody(ts, p, skip), rest);
    }
  }

  /** One statement in a brace body, followed by the rest of the run. */
  lemma BraceStatement(ts: seq<Token>, p: nat, q: nat, skip: bool, st: Parsed<Option<Stmt>>, rest: seq<Stmt>)
    requires p < q <= Limit(ts) && !IsLayout(ts[p].kind) && ts[p].kind != RBRACE
    requires Statement(ts, p) == Ok(st) && st.pos <= q && Run(ts, st.pos, q, RBRACE) == Some(rest)
    requires Run(ts, p, q, RBRACE) == Some(Keep(st.value) + rest)
    requires BraceBody(ts, st.pos, skip) == Ok(Parsed(Run(ts, st.pos, q, RBRACE).value, q))
    ensures BraceBody(ts, p, skip) == Ok(Parsed(Run(ts, p, q, RBRACE).value, q))
  {
    Splice(BraceBody(ts, st.pos, skip), Run(ts, st.pos, q, RBRACE), rest, q);
    BraceStep(ts, p, skip, st, rest, q);
    Splice(BraceBody(ts, p, skip), Run(ts, p, q, RBRACE), Keep(st.value) + rest, q);
  }

  /** A brace body at a statement: the statement, then the rest of the
      body. */
  lemma BraceStep(ts: seq<Token>, p: nat, skip: bool, st: Parsed<Option<Stmt>>, rest: seq<Stmt>, end: nat)
    requires p < Limit(ts) && ts[p].kind != RBRACE && !(skip && IsLayout(ts[p].kind))
    requires Statement(ts, p) == Ok(st) && st.pos <= Limit(ts) && BraceBody(ts, st.pos, skip) == Ok(Parsed(rest, end))
    ensures BraceBody(ts, p, skip) == Ok(Parsed(Keep(st.value) + rest, end))
  {
  }

  /** A brace body that skips layout tokens reads past one. */
  lemma BraceSkip(ts: seq<Token>, p: nat)
    requires p < Limit(ts) && IsLayout(ts[p].kind)
    ensures BraceBody(ts, p, true) == BraceBody(ts, p + 1, true)
  {
  }

  /** The loop of an indented block reads exactly the run of statements
      before the DEDENT, and consumes the DEDENT. */
  lemma {:induction false} IndentRun(ts: seq<Token>, p: nat, q: nat, skip: bool)
    requires p <= q <= Limit(ts) && Match(ts, q, DEDENT)
    requires Run(ts, p, q, DEDENT).Some?
    ensures IndentBody(ts, p, skip) == Ok(Parsed(Run(ts, p, q, DEDENT).value, q + 1))
    decreases q - p
  {
    if p < q {
      if IsLayout(ts[p].kind) {
        RunLayout(ts, p, q, DEDENT);
        IndentRun(ts, p + 1, q, skip);
        IndentPassesLayout(ts, p, skip);
      } else {
        var st, rest := RunHead(ts, p, q, DEDENT);
        IndentRun(ts, st.pos, q, skip);
        IndentStatement(ts, p, q, skip, st, rest);
      }
    }
  }

  /** A layout token other than DEDENT adds nothing to an indented body,
      whether it is skipped or read as a null statement. */
  lemma IndentPassesLayout(ts: seq<Token>, p: nat, skip: bool)
    requires p < Limit(ts) && IsLayout(ts[p].kind) && ts[p].kind != DEDENT
    ensures IndentBody(ts, p + 1, skip).Ok? ==> IndentBody(ts, p, skip) == IndentBody(ts, p + 1, skip)
  {
    if skip && ts[p].kind == NEWLINE {
      IndentSkip(ts, p);
    } else if IndentBody(ts, p + 1, skip).Ok? {
      var rest := IndentBody(ts, p + 1, skip);
      Eta(rest);
      IndentNull(ts, p, skip, rest.value.value, rest.value.pos);
      Null(IndentBody(ts, p, skip), rest);
    }
  }

  /** One statement in an indented body, followed by the rest of the run. */
  lemma IndentStatement(ts: seq<Token>, p: nat, q: nat, skip: bool, st: Parsed<Option<Stmt>>, rest: seq<Stmt>)
    requires p < q <= Limit(ts) && !IsLayout(ts[p].kind)
    requires Statement(ts, p) == Ok(st) && st.pos <= q && Run(ts, st.pos, q, DEDENT) == Some(rest)
    requires Run(ts, p, q, DEDENT) == Some(Keep(st.value) + rest)
    requires IndentBody(ts, st.pos, skip) == Ok(Parsed(Run(ts, st.pos, q, DEDENT).value, q + 1))
    ensures IndentBody(ts, p, skip) == Ok(Parsed(Run(ts, p, q, DEDENT).value, q + 1))
  {
    Splice(IndentBody(ts, st.pos, skip), Run(ts, st.pos, q, DEDENT), rest, q + 1);
    IndentStep(ts, p, skip, st, rest, q + 1);
    Splice(IndentBody(ts, p, skip), Run(ts, p, q, DEDENT), Keep(st.value) + rest, q + 1);
  }

  /** An indented body at a statement: the statement, then the rest of the
      body. */
  lemma IndentStep(ts: seq<Token>, p: nat, skip: bool, st: Parsed<Option<Stmt>>, rest: seq<Stmt>, end: nat)
    requires p < Limit(ts) && !IsLayout(ts[p].kind)
    requires Statement(ts, p) == Ok(st) && st.pos <= Limit(ts) && IndentBody(ts, st.pos, skip) == Ok(Parsed(rest, end))
    ensures IndentBody(ts, p, skip) == Ok(Parsed(Keep(st.value) + rest, end))
  {
  }

  /** An indented body at a layout token it does not skip: a null
      statement, then the rest of the body. */
  lemma IndentNull(ts: seq<Token>, p: nat, skip: bool, rest: seq<Stmt>, end: nat)
    requires p < Limit(ts) && IsLayout(ts[p].kind) && ts[p].kind != DEDENT && !(skip && ts[p].kind == NEWLINE)
    requires IndentBody(ts, p + 1, skip) == Ok(Parsed(rest, end))
    ensures IndentBody(ts, p, skip) == Ok(Parsed(Keep(None) + rest, end))
  {
    LayoutIsNull(ts, p);
  }

  /** An indented body that skips NEWLINE tokens reads past one. */
  lemma IndentSkip(ts: seq<Token>, p: nat)
    requires p < Limit(ts) && ts[p].kind == NEWLINE
    ensures IndentBody(ts, p, true) == IndentBody(ts, p + 1, true)
  {
  }

  /** A layout token is read as a null statement. */
  lemma LayoutIsNull(ts: seq<Token>, p: nat)
    requires p < Limit(ts) && IsLayout(ts[p].kind)
    ensures Statement(ts, p) == Ok(Parsed(None, p + 1))
  {
    assert !IsKeyword(ts[p].kind);
    NoStatement(ts, p);
  }

  /** A run passes over a layout token that is not its closer. */
  lemma RunLayout(ts: seq<Token>, p: nat, q: nat, closer: Kind)
    requires p < q <= Limit(ts) && IsLayout(ts[p].kind) && Run(ts, p, q, closer).Some?
    ensures ts[p].kind != closer && Run(ts, p, q, closer) == Run(ts, p + 1, q, closer)
  {
  }

  /** A run that does not start at a layout token starts with a statement
      that ends within it: the run is that statement, then the rest of the
      run. */
  lemma RunHead(ts: seq<Token>, p: nat, q: nat, closer: Kind) returns (st: Parsed<Option<Stmt>>, rest: seq<Stmt>)
    requires p < q <= Limit(ts) && !IsLayout(ts[p].kind) && Run(ts, p, q, closer).Some?
    ensures ts[p].kind != closer
    ensures Statement(ts, p) == Ok(st) && p < st.pos <= q
    ensures Run(ts, st.pos, q, closer) == Some(rest)
    ensures Run(ts, p, q, closer) == Some(Keep(st.value) + rest)
  {
    st := Statement(ts, p).value;
    rest := Run(ts, st.pos, q, closer).value;
  }

  /** A body reads a run's statements exactly when it reads what the run
      holds. */
  lemma Splice(body: Result<Parsed<seq<Stmt>>>, run: Option<seq<Stmt>>, xs: seq<Stmt>, end: nat)
    requires run == Some(xs)
    ensures body == Ok(Parsed(xs, end)) <==> body == Ok(Parsed(run.value, end))
  {
  }

  /** A body that reads nothing before the rest of a body reads that
      rest. */
  lemma Null(body: Result<Parsed<seq<Stmt>>>, rest: Result<Parsed<seq<Stmt>>>)
    requires rest.Ok? && body == Ok(Parsed(Keep(None) + rest.value.value, rest.value.pos))
    ensures body == rest
  {
    assert Keep(None) + rest.value.value == rest.value.value;
  }

  /** A successful body is its statements and its end. */
  lemma Eta(body: Result<Parsed<seq<Stmt>>>)
    requires body.Ok?
    ensures body == Ok(Parsed(body.value.value, body.value.pos))
  {
  }

  /** A block written `{ … }` and the same block written NEWLINE INDENT …
      DEDENT parse to the same statements, for every block kind, provided
      its statements read the same in both: a statement whose parse looks
      at the closing token (see `ReturnBeforeBrace`) is outside this. */
  lemma BlockForms(ts1: seq<Token>, p1: nat, q1: nat, ts2: seq<Token>, p2: nat, q2: nat, style: BlockStyle)
    requires p1 < q1 <= Limit(ts1) && Match(ts1, p1, LBRACE) && Peek(ts1, q1).kind == RBRACE
    requires p2 + 2 <= q2 <= Limit(ts2) && Match(ts2, p2, NEWLINE) && Match(ts2, p2 + 1, INDENT) && Match(ts2, q2, DEDENT)
    requires Run(ts1, p1 + 1, q1, RBRACE).Some? && Run(ts2, p2 + 2, q2, DEDENT) == Run(ts1, p1 + 1, q1, RBRACE)
    ensures Block(ts1, p1, style) == Ok(Parsed(Run(ts1, p1 + 1, q1, RBRACE).value, q1 + 1))
    ensures Block(ts2, p2, style) == Ok(Parsed(Run(ts1, p1 + 1, q1, RBRACE).value, q2 + 1))
  {
    BraceBlock(ts1, p1, q1, style);
    IndentBlock(ts2, p2, q2, style);
  }

  /** A brace block reads the run of statements up to its `}` and consumes
      the `}`. */
  lemma BraceBlock(ts: seq<Token>, p: nat, q: nat, style: BlockStyle)
    requires p < q <= Limit(ts) && Match(ts, p, LBRACE) && Peek(ts, q).kind == RBRACE
    requires Run(ts, p + 1, q, RBRACE).Some?
    ensures Block(ts, p, style) == Ok(Parsed(Run(ts, p + 1, q, RBRACE).value, q + 1))
  {
    BraceRun(ts, p + 1, q, true);
    BraceClose(ts, p, q, style, Run(ts, p + 1, q, RBRACE).value);
  }

  /** A brace block whose body reads `xs` up to a `}` is `xs`, and ends
      after the `}`. */
  lemma BraceClose(ts: seq<Token>, p: nat, q: nat, style: BlockStyle, xs: seq<Stmt>)
    requires p < q <= Limit(ts) && Match(ts, p, LBRACE) && Peek(ts, q).kind == RBRACE
    requires BraceBody(ts, p + 1, true) == Ok(Parsed(xs, q))
    ensures Block(ts, p, style) == Ok(Parsed(xs, q + 1))
  {
    var close := ConsumeAt(ts, q, RBRACE, style.closeBrace);
    BraceParts(ts, p, q, style, xs, close);
  }

  /** `consume(k)` at a token of kind `k` (not the end) takes its text. */
  lemma ConsumeAt(ts: seq<Token>, q: nat, k: Kind, err: string) returns (text: string)
    requires q <= Limit(ts) && Peek(ts, q).kind == k && k != EOF_TOKEN
    ensures q < Limit(ts) && Consume(ts, q, k, err) == Ok(Parsed(text, q + 1))
  {
    NotAtEnd(ts, q);
    text := ts[q].text;
  }

  /** A brace block is its body followed by the closing `}`. */
  lemma BraceParts(ts: seq<Token>, p: nat, q: nat, style: BlockStyle, xs: seq<Stmt>, close: string)
    requires p < q < Limit(ts) && Match(ts, p, LBRACE)
    requires BraceBody(ts, p + 1, true) == Ok(Parsed(xs, q))
    requires Consume(ts, q, RBRACE, style.closeBrace) == Ok(Parsed(close, q + 1))
    ensures Block(ts, p, style) == Ok(Parsed(xs, q + 1))
  {
  }

  /** An indented block reads the run of statements up to its DEDENT and
      consumes the DEDENT. */
  lemma IndentBlock(ts: seq<Token>, p: nat, q: nat, style: BlockStyle)
    requires p + 2 <= q <= Limit(ts) && Match(ts, p, NEWLINE) && Match(ts, p + 1, INDENT) && Match(ts, q, DEDENT)
    requires Run(ts, p + 2, q, DEDENT).Some?
    ensures Block(ts, p, style) == Ok(Parsed(Run(ts, p + 2, q, DEDENT).value, q + 1))
  {
    IndentRun(ts, p + 2, q, style.skipNewlines);
    IndentOpen(ts, p, style);
  }

  /** A block at NEWLINE INDENT is the indented body after them. */
  lemma IndentOpen(ts: seq<Token>, p: nat, style: BlockStyle)
    requires p + 2 <= Limit(ts) && Match(ts, p, NEWLINE) && Match(ts, p + 1, INDENT)
    ensures Block(ts, p, style) == IndentBody(ts, p + 2, style.skipNewlines)
  {
  }

  // ---------------------------------------------------------------------
  // `return` before `}`
  // ---------------------------------------------------------------------

  /** `parseReturn` as the C++ writes it: a value is parsed unless NEWLINE,
      DEDENT or the end follows, so a `}` is taken as the start of a
      value. */
  function ReturnAsWritten(ts: seq<Token>, p: nat): (r: Result<Parsed<Stmt>>)
    requires p <= Limit(ts)
    ensures Advanced(ts, p, r)
    ensures r.Ok? ==> r.value.value.ReturnStmt?
    ensures r.Ok? ==> (r.value.value.result.None? <==> Peek(ts, p).kind in {NEWLINE, DEDENT, EOF_TOKEN})
  {
    ReturnTail(ts, p, Peek(ts, p).kind in {NEWLINE, DEDENT, EOF_TOKEN})
  }

  /** The two differ only before a `}`. */
  lemma ReturnAgrees(ts: seq<Token>, p: nat)
    requires p <= Limit(ts) && Peek(ts, p).kind != RBRACE
    ensures ReturnAsWritten(ts, p) == Return(ts, p)
  {
    assert (Peek(ts, p).kind in ReturnEnds) == (Peek(ts, p).kind in {NEWLINE, DEDENT, EOF_TOKEN});
  }

  /** No expression starts at a `}`: every tier fails with the message of
      `parsePrimary`. */
  lemma {:induction false} NoExpressionAtBrace(ts: seq<Token>, p: nat, lvl: nat)
    requires p <= Limit(ts) && lvl < Tiers && Peek(ts, p).kind == RBRACE
    ensures Binary(ts, p, lvl) == Err("Unknown token: " + Peek(ts, p).text)
    decreases Tiers - lvl
  {
    if lvl + 1 < Tiers {
      NoExpressionAtBrace(ts, p, lvl + 1);
    } else {
      UnaryAtBrace(ts, p);
    }
    assert Operand(ts, p, lvl) == Err("Unknown token: " + Peek(ts, p).text);
  }

  /** The operand of the innermost tier fails at a `}`. */
  lemma UnaryAtBrace(ts: seq<Token>, p: nat)
    requires p <= Limit(ts) && Peek(ts, p).kind == RBRACE
    ensures Unary(ts, p) == Err("Unknown token: " + Peek(ts, p).text)
  {
    AtomAtBrace(ts, p);
    assert Primary(ts, p) == Atom(ts, p);
    assert Postfix(ts, p) == Atom(ts, p);
  }

  /** No case of `parsePrimary` takes a `}`. */
  lemma AtomAtBrace(ts: seq<Token>, p: nat)
    requires p <= Limit(ts) && Peek(ts, p).kind == RBRACE
    ensures Atom(ts, p) == Err("Unknown token: " + Peek(ts, p).text)
  {
    var t := Peek(ts, p);
    assert Literal(t) == None;
    assert !Match(ts, p, THIS) && !Match(ts, p, NEW) && !Match(ts, p, LBRACKET) && !Match(ts, p, LBRACE) && !Match(ts, p, LPAREN);
  }

  /** RETURN before RBRACE: as written, the RBRACE is read as the start of
      a value and the parse fails with "Unknown token: " and that token's
      text (empty for a lexed `}`), so the stream LBRACE RETURN RBRACE is
      rejected while the same body written by indentation parses; the
      corrected `Return` yields a bare return and leaves the RBRACE to
      close the block. */
  lemma ReturnBeforeBrace(ts: seq<Token>, p: nat)
    requires p <= Limit(ts) && Peek(ts, p).kind == RBRACE
    ensures ReturnAsWritten(ts, p) == Err("Unknown token: " + Peek(ts, p).text)
    ensures Return(ts, p) == Ok(Parsed(ReturnStmt(None), p))
  {
    NoExpressionAtBrace(ts, p, 0);
  }

  /** With the corrected `Return`, the streams LBRACE RETURN RBRACE and
      NEWLINE INDENT RETURN NEWLINE DEDENT give the same one-statement
      body. */
  lemma BareReturnForms(ts1: seq<Token>, p1: nat, ts2: seq<Token>, p2: nat, style: BlockStyle)
    requires p1 + 2 <= Limit(ts1) && ts1[p1].kind == LBRACE && ts1[p1 + 1].kind == RETURN && Peek(ts1, p1 + 2).kind == RBRACE
    requires p2 + 4 <= Limit(ts2) && ts2[p2].kind == NEWLINE && ts2[p2 + 1].kind == INDENT
    requires ts2[p2 + 2].kind == RETURN && ts2[p2 + 3].kind == NEWLINE && Peek(ts2, p2 + 4).kind == DEDENT
    ensures Block(ts1, p1, style) == Ok(Parsed([ReturnStmt(None)], p1 + 3))
    ensures Block(ts2, p2, style) == Ok(Parsed([ReturnStmt(None)], p2 + 5))
  {
    BraceBareReturn(ts1, p1, style);
    IndentBareReturn(ts2, p2, style);
  }

  /** LBRACE RETURN RBRACE is a block of one bare return. */
  lemma BraceBareReturn(ts: seq<Token>, p: nat, style: BlockStyle)
    requires p + 2 <= Limit(ts) && ts[p].kind == LBRACE && ts[p + 1].kind == RETURN && Peek(ts, p + 2).kind == RBRACE
    ensures Block(ts, p, style) == Ok(Parsed([ReturnStmt(None)], p + 3))
  {
    BareReturnAt(ts, p + 1, p + 2);
    RunOne(ts, p + 1, p + 2, RBRACE, ReturnStmt(None));
    BraceBlock(ts, p, p + 2, style);
    Splice(Block(ts, p, style), Run(ts, p + 1, p + 2, RBRACE), [ReturnStmt(None)], p + 2 + 1);
  }

  /** NEWLINE INDENT `return` NEWLINE DEDENT is a block of one bare
      return. */
  lemma IndentBareReturn(ts: seq<Token>, p: nat, style: BlockStyle)
    requires p + 4 <= Limit(ts) && ts[p].kind == NEWLINE && ts[p + 1].kind == INDENT
    requires ts[p + 2].kind == RETURN && ts[p + 3].kind == NEWLINE && Peek(ts, p + 4).kind == DEDENT
    ensures Block(ts, p, style) == Ok(Parsed([ReturnStmt(None)], p + 5))
  {
    BareReturnAt(ts, p + 2, p + 4);
    RunOne(ts, p + 2, p + 4, DEDENT, ReturnStmt(None));
    IndentBlock(ts, p, p + 4, style);
    Splice(Block(ts, p, style), Run(ts, p + 2, p + 4, DEDENT), [ReturnStmt(None)], p + 4 + 1);
  }

  /** A run of one statement. */
  lemma RunOne(ts: seq<Token>, p: nat, q: nat, closer: Kind, x: Stmt)
    requires p < q <= Limit(ts) && ts[p].kind != closer && !IsLayout(ts[p].kind)
    requires Statement(ts, p) == Ok(Parsed(Some(x), q))
    ensures Run(ts, p, q, closer) == Some([x])
  {
    assert Run(ts, q, q, closer) == Some([]);
    assert Keep(Some(x)) + [] == [x];
  }

  /** A bare `return` that ends at `q`: before a `}`, or taking the
      NEWLINE that follows it. */
  lemma BareReturnAt(ts: seq<Token>, p: nat, q: nat)
    requires p < Limit(ts) && ts[p].kind == RETURN
    requires (q == p + 1 && Peek(ts, p + 1).kind == RBRACE) || (q == p + 2 && p + 1 < Limit(ts) && ts[p + 1].kind == NEWLINE)
    ensures Statement(ts, p) == Ok(Parsed(Some(ReturnStmt(None)), q))
  {
    BareReturn(ts, p);
  }

  /** A `return` before a token that ends it is a bare return statement,
      which takes a following NEWLINE with it. */
  lemma BareReturn(ts: seq<Token>, p: nat)
    requires p < Limit(ts) && ts[p].kind == RETURN && Peek(ts, p + 1).kind in ReturnEnds
    ensures Statement(ts, p) == Ok(Parsed(Some(ReturnStmt(None)), if Match(ts, p + 1, NEWLINE) then p + 2 else p + 1))
  {
    var q := if Match(ts, p + 1, NEWLINE) then p + 2 else p + 1;
    assert Return(ts, p + 1) == Ok(Parsed(ReturnStmt(None), q));
    assert Keyword(ts, p + 1, RETURN) == Return(ts, p + 1);
  }
}
