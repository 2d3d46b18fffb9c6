/** The `print` renderers of `include/ast.h`, as functions returning the
    text they write to standard output. The header declares a renderer only
    for some nodes; `PrintableExpr` and `PrintableStmt` say which. A `for`
    statement renders its collection expression where the header's older
    node printed a range string, and a call statement renders its argument
    list only when it has at most one argument, the one argument the
    header's node holds.

    The partner of the expression renderer is `ReadExpr`, which reads a
    rendered expression back: `ReadExprText` proves the rendering
    unambiguous. The partner of the statement renderer is the line
    structure `IndentedLines`, which `StmtLines` proves every rendering
    has. */
module AstPrint {

  import opened Results
  import opened Text
  import opened Ast

  // ---------------------------------------------------------------------
  // Expressions
  // ---------------------------------------------------------------------

  /** The expression nodes `include/ast.h` renders. A float literal's
      rendering is the stream formatting of a double, which is not part
      of this model. */
  predicate PrintableExpr(e: Expr) {
    match e
    case NumberExpr(_) => true
    case VariableExpr(_) => true
    case StringExpr(_) => true
    case CharExpr(_) => true
    case BoolExpr(_) => true
    case BinaryExpr(_, l, r) => PrintableExpr(l) && PrintableExpr(r)
    case _ => false
  }

  function ExprText(e: Expr): (r: string)
    requires PrintableExpr(e)
    ensures e.BinaryExpr? ==>
      |r| == |ExprText(e.lhs)| + |ExprText(e.rhs)| + 5 && r[0] == '(' && r[|r| - 1] == ')'
  {
    match e
    case NumberExpr(n) => Decimal(n)
    case VariableExpr(name) => name
    case StringExpr(s) => "\"" + s + "\""
    case CharExpr(c) => "'" + [c] + "'"
    case BoolExpr(b) => if b then "true" else "false"
    case BinaryExpr(op, l, r) => "(" + ExprText(l) + " " + [op] + " " + ExprText(r) + ")"
  }

  // ---------------------------------------------------------------------
  // Statements
  // ---------------------------------------------------------------------

  /** The statement nodes `include/ast.h` renders, with printable parts. */
  predicate PrintableStmt(s: Stmt)
    decreases StmtSize(s), 0
  {
    match s
    case SetStmt(_, e) => PrintableExpr(e)
    case WhileStmt(c, b) => PrintableExpr(c) && PrintableBlock(b)
    case IfStmt(c, t, e) => PrintableExpr(c) && PrintableBlock(t) && PrintableBlock(e)
    case ForStmt(_, c, b) => PrintableExpr(c) && PrintableBlock(b)
    case AppDecl(_, b) => PrintableBlock(b)
    case WindowDecl(_, b) => PrintableBlock(b)
    case FuncStmt(d) => PrintableBlock(d.body)
    case PropertyStmt(_, _) => true
    case CallStmt(_, args) => |args| == 0 || (|args| == 1 && PrintableExpr(args[0]))
    case ConnectStmt(_, _, _) => true
    case UpdateStmt(_, _) => true
    case _ => false
  }

  predicate PrintableBlock(ss: seq<Stmt>)
    decreases StmtsSize(ss), 1
  {
    |ss| == 0 || (PrintableStmt(ss[0]) && PrintableBlock(ss[1..]))
  }

  /** One output line: `indent` spaces, the text, a newline. */
  function Line(indent: nat, text: string): (r: string)
    ensures |r| == indent + |text| + 1 && r[..indent] == Spaces(indent) && r[|r| - 1] == '\n'
  {
    Spaces(indent) + text + "\n"
  }

  /** `stmt->print(indent)`: a header line at `indent`, then the nested
      statements, if any. Every rendering is whole lines. */
  function StmtText(s: Stmt, indent: nat): (r: string)
    requires PrintableStmt(s)
    ensures |r| > indent && r[..indent] == Spaces(indent) && r[|r| - 1] == '\n'
    decreases StmtSize(s), 1
  {
    var h := Line(indent, Header(s));
    var n := Nested(s, indent);
    assert (h + n)[..indent] == h[..indent];
    h + n
  }

  /** The text of a statement's first line, after the indentation. */
  function Header(s: Stmt): (r: string)
    requires PrintableStmt(s)
  {
    match s
    case SetStmt(name, e) => "Set: " + name + " = " + ExprText(e)
    case WhileStmt(c, _) => "While: " + ExprText(c)
    case IfStmt(c, _, _) => "If: " + ExprText(c)
    case ForStmt(i, c, _) => "For: " + i + " in " + ExprText(c)
    case AppDecl(name, _) => "App: " + name
    case WindowDecl(name, _) => "Window: " + name
    case FuncStmt(d) => "Func: " + d.name
    case PropertyStmt(name, v) => "Property: " + name + " = \"" + v + "\""
    case CallStmt(f, args) => "Call: " + f + "(" + (if |args| == 0 then "" else ExprText(args[0])) + ")"
    case ConnectStmt(src, ev, tgt) => "Connect: " + src + "." + ev + " -> " + tgt
    case UpdateStmt(name, op) => "Update: " + name + op
  }

  /** The lines after the header: a body two columns deeper, and for a
      conditional its else part. */
  function Nested(s: Stmt, indent: nat): (r: string)
    requires PrintableStmt(s)
    ensures r != "" ==> r[|r| - 1] == '\n'
    decreases StmtSize(s), 0
  {
    BodyPrintable(s);
    var body := BlockText(Body(s), indent + 2);
    if s.IfStmt? then body + ElsePart(indent, s.elseBranch) else body
  }

  lemma BodyPrintable(s: Stmt)
    requires PrintableStmt(s)
    ensures PrintableBlock(Body(s))
    ensures s.IfStmt? ==> PrintableBlock(s.elseBranch)
  {
  }

  /** The `Else:` line and the else-branch, present only for a non-empty branch. */
  function ElsePart(indent: nat, e: seq<Stmt>): (r: string)
    requires PrintableBlock(e)
    ensures |e| == 0 <==> r == ""
    ensures r != "" ==> r[|r| - 1] == '\n'
    decreases StmtsSize(e), 3
  {
    if |e| == 0 then "" else Line(indent, "Else:") + BlockText(e, indent + 2)
  }

  /** The statements of a block, in order, each at `indent`. */
  function BlockText(ss: seq<Stmt>, indent: nat): (r: string)
    requires PrintableBlock(ss)
    ensures |ss| == 0 <==> r == ""
    ensures r != "" ==> r[|r| - 1] == '\n'
    decreases StmtsSize(ss), 2
  {
    if |ss| == 0 then ""
    else
      var first := StmtText(ss[0], indent);
      first + BlockText(ss[1..], indent)
  }

  /** `Program::print`: every statement at indent 0. */
  function ProgramText(p: Program): (r: string)
    requires PrintableBlock(p.statements)
    ensures r == "" <==> |p.statements| == 0
  {
    BlockText(p.statements, 0)
  }

  lemma {:induction false} PrintableConcat(a: seq<Stmt>, b: seq<Stmt>)
    requires PrintableBlock(a) && PrintableBlock(b)
    ensures PrintableBlock(a + b)
    decreases |a|
  {
    if |a| == 0 {
      assert a + b == b;
    } else {
      assert (a + b)[1..] == a[1..] + b;
      PrintableConcat(a[1..], b);
    }
  }

  /** A block renders its statements in order: the rendering of a
      concatenation is the concatenation of the renderings. */
  lemma {:induction false} BlockTextConcat(a: seq<Stmt>, b: seq<Stmt>, indent: nat)
    requires PrintableBlock(a) && PrintableBlock(b)
    ensures PrintableBlock(a + b)
    ensures BlockText(a + b, indent) == BlockText(a, indent) + BlockText(b, indent)
    decreases |a|
  {
    PrintableConcat(a, b);
    if |a| == 0 {
      assert a + b == b;
    } else {
      var t := a[1..];
      assert (a + b)[1..] == t + b;
      BlockTextConcat(t, b, indent);
      calc {
        BlockText(a + b, indent);
        StmtText(a[0], indent) + BlockText(t + b, indent);
        StmtText(a[0], indent) + (BlockText(t, indent) + BlockText(b, indent));
        { Assoc(StmtText(a[0], indent), BlockText(t, indent), BlockText(b, indent)); }
        (StmtText(a[0], indent) + BlockText(t, indent)) + BlockText(b, indent);
      }
    }
  }

  /** Appending a statement to a program appends its rendering at indent 0. */
  lemma ProgramTextAppend(ss: seq<Stmt>, s: Stmt)
    requires PrintableBlock(ss) && PrintableStmt(s)
    ensures PrintableBlock(ss + [s])
    ensures ProgramText(Program(ss + [s])) == ProgramText(Program(ss)) + StmtText(s, 0)
  {
    BlockTextConcat(ss, [s], 0);
    assert [s][1..] == [];
    assert BlockText([s], 0) == StmtText(s, 0);
  }

  // ---------------------------------------------------------------------
  // Reading a rendered expression back
  // ---------------------------------------------------------------------

  /** An expression read from the front of a string, and what follows it. */
  datatype Read = Read(e: Expr, rest: string)

  predicate IsNameChar(c: char) { IsWordChar(c) || c == '.' }

  /** The end of the run of name characters starting at `i`. */
  function NameEnd(s: string, i: nat): (j: nat)
    requires i <= |s|
    ensures i <= j <= |s|
    ensures forall k :: i <= k < j ==> IsNameChar(s[k])
    ensures j < |s| ==> !IsNameChar(s[j])
    decreases |s| - i
  {
    if i < |s| && IsNameChar(s[i]) then NameEnd(s, i + 1) else i
  }

  /** The position of the first double quote at or after `i`, or `|s|`. */
  function QuoteEnd(s: string, i: nat): (j: nat)
    requires i <= |s|
    ensures i <= j <= |s|
    ensures forall k :: i <= k < j ==> s[k] != '"'
    ensures j < |s| ==> s[j] == '"'
    decreases |s| - i
  {
    if i < |s| && s[i] != '"' then QuoteEnd(s, i + 1) else i
  }

  /** Reads one rendered expression from the front of `s`. */
  function ReadExpr(s: string): (r: Option<Read>)
    ensures r.Some? ==> |r.value.rest| < |s|
    decreases |s|
  {
    if |s| == 0 then None
    else if s[0] == '(' then
      var left :- ReadExpr(s[1..]);
      var t := left.rest;
      if |t| >= 3 && t[0] == ' ' && t[2] == ' ' then
        var right :- ReadExpr(t[3..]);
        var u := right.rest;
        if |u| >= 1 && u[0] == ')' then Some(Read(BinaryExpr(t[1], left.e, right.e), u[1..]))
        else None
      else None
    else if s[0] == '"' then
      var j := QuoteEnd(s, 1);
      if j < |s| then Some(Read(StringExpr(s[1..j]), s[j + 1..])) else None
    else if s[0] == '\'' then
      if |s| >= 3 && s[2] == '\'' then Some(Read(CharExpr(s[1]), s[3..])) else None
    else if s[0] == '-' || IsDigit(s[0]) then
      var start := if s[0] == '-' then 1 else 0;
      var j := DigitRunEnd(s, start);
      if j == start then None
      else
        var mag: int := DigitsValue(s[start..j]);
        var n: int := if s[0] == '-' then -mag else mag;
        Some(Read(NumberExpr(n), s[j..]))
    else
      var j := NameEnd(s, 0);
      if j == 0 then None
      else
        var w := s[..j];
        var e := if w == "true" then BoolExpr(true)
                 else if w == "false" then BoolExpr(false)
                 else VariableExpr(w);
        Some(Read(e, s[j..]))
  }

  /** A variable name as the parser builds them: an identifier, possibly
      dotted (`time.now`). */
  predicate IsName(w: string) {
    |w| >= 1 && (IsAlpha(w[0]) || w[0] == '_') && forall i :: 0 <= i < |w| ==> IsNameChar(w[i])
  }

  /** The printable expressions whose rendering can be read back: names are
      names other than the two boolean words, and string literals hold no
      double quote (the renderer does not escape it). */
  predicate Readable(e: Expr) {
    match e
    case NumberExpr(_) => true
    case VariableExpr(name) => IsName(name) && name != "true" && name != "false"
    case StringExpr(s) => forall i :: 0 <= i < |s| ==> s[i] != '"'
    case CharExpr(_) => true
    case BoolExpr(_) => true
    case BinaryExpr(_, l, r) => Readable(l) && Readable(r)
    case _ => false
  }

  /** What may follow a rendered operand: the end, a space or a `)`. */
  predicate Delimits(rest: string) {
    |rest| == 0 || rest[0] == ' ' || rest[0] == ')'
  }

  lemma ReadablePrintable(e: Expr)
    requires Readable(e)
    ensures PrintableExpr(e)
  {
  }

  /** The rendering is unambiguous: reading it back yields the expression
      and leaves what followed it. */
  lemma {:induction false} ReadExprText(e: Expr, rest: string)
    requires Readable(e) && Delimits(rest)
    ensures PrintableExpr(e) && ReadExpr(ExprText(e) + rest) == Some(Read(e, rest))
    decreases ExprSize(e), 1
  {
    ReadablePrintable(e);
    match e
    case NumberExpr(n) => ReadNumber(n, rest);
    case VariableExpr(name) => ReadName(name, rest);
    case StringExpr(v) => ReadString(v, rest);
    case CharExpr(c) =>
      var s := ExprText(e) + rest;
      assert s[1] == c && s[3..] == rest;
    case BoolExpr(b) => ReadName(if b then "true" else "false", rest);
    case BinaryExpr(op, l, r) => ReadBinary(op, l, r, rest);
  }

  lemma {:induction false} ReadBinary(op: char, l: Expr, r: Expr, rest: string)
    requires Readable(l) && Readable(r) && Delimits(rest)
    ensures PrintableExpr(BinaryExpr(op, l, r))
    ensures ReadExpr(ExprText(BinaryExpr(op, l, r)) + rest) == Some(Read(BinaryExpr(op, l, r), rest))
    decreases ExprSize(l) + ExprSize(r) + 1, 0
  {
    ReadablePrintable(l);
    ReadablePrintable(r);
    var u := ")" + rest;
    var t := " " + [op] + " " + (ExprText(r) + u);
    var s := "(" + (ExprText(l) + t);
    ParenShape(ExprText(l), op, ExprText(r), rest);
    assert ExprText(BinaryExpr(op, l, r)) + rest == s;
    assert s[1..] == ExprText(l) + t;
    assert t[1] == op && t[3..] == ExprText(r) + u;
    ReadExprText(l, t);
    ReadExprText(r, u);
    ReadParen(s, l, t, r, rest);
  }

  /** How a rendered binary expression followed by `rest` splits up. */
  lemma ParenShape(a: string, op: char, b: string, rest: string)
    ensures ("(" + a + " " + [op] + " " + b + ")") + rest
         == "(" + (a + (" " + [op] + " " + (b + (")" + rest))))
    ensures (" " + [op] + " " + (b + (")" + rest)))[3..] == b + (")" + rest)
  {
  }

  /** One unfolding of `ReadExpr` on a parenthesised rendering. */
  lemma ReadParen(s: string, l: Expr, t: string, r: Expr, rest: string)
    requires |s| > 0 && s[0] == '(' && ReadExpr(s[1..]) == Some(Read(l, t))
    requires |t| >= 3 && t[0] == ' ' && t[2] == ' '
    requires ReadExpr(t[3..]) == Some(Read(r, ")" + rest))
    ensures ReadExpr(s) == Some(Read(BinaryExpr(t[1], l, r), rest))
  {
    assert (")" + rest)[1..] == rest;
  }

  lemma ReadNumber(n: int, rest: string)
    requires Delimits(rest)
    ensures ReadExpr(Decimal(n) + rest) == Some(Read(NumberExpr(n), rest))
  {
    var d := Decimal(n);
    var s := d + rest;
    var start := if n < 0 then 1 else 0;
    var m := if n < 0 then -n else n;
    assert d[start..] == Digits(m);
    assert s[start..|d|] == Digits(m);
    DigitRunStops(s, start, |d|);
    DigitsValueOfDigits(m);
    assert s[|d|..] == rest;
  }

  lemma ReadName(name: string, rest: string)
    requires IsName(name) && Delimits(rest)
    ensures var e := if name == "true" then BoolExpr(true)
                     else if name == "false" then BoolExpr(false)
                     else VariableExpr(name);
            ReadExpr(name + rest) == Some(Read(e, rest))
  {
    var s := name + rest;
    NameEndAt(s, 0, |name|);
    assert s[..|name|] == name && s[|name|..] == rest;
  }

  lemma {:induction false} NameEndAt(s: string, i: nat, k: nat)
    requires i <= k <= |s|
    requires forall j :: i <= j < k ==> IsNameChar(s[j])
    requires k < |s| ==> !IsNameChar(s[k])
    ensures NameEnd(s, i) == k
    decreases k - i
  {
    if i < k {
      NameEndAt(s, i + 1, k);
    }
  }

  lemma ReadString(v: string, rest: string)
    requires forall i :: 0 <= i < |v| ==> v[i] != '"'
    ensures ReadExpr(ExprText(StringExpr(v)) + rest) == Some(Read(StringExpr(v), rest))
  {
    var s := ExprText(StringExpr(v)) + rest;
    assert s == "\"" + v + "\"" + rest;
    QuoteEndAt(s, 1, |v| + 1);
    assert s[1..|v| + 1] == v && s[|v| + 2..] == rest;
  }

  lemma {:induction false} QuoteEndAt(s: string, i: nat, k: nat)
    requires i <= k < |s| && s[k] == '"'
    requires forall j :: i <= j < k ==> s[j] != '"'
    ensures QuoteEnd(s, i) == k
    decreases k - i
  {
    if i < k {
      QuoteEndAt(s, i + 1, k);
    }
  }

  // ---------------------------------------------------------------------
  // Line structure of a rendering
  // ---------------------------------------------------------------------

  predicate NoNewline(t: string) {
    forall i :: 0 <= i < |t| ==> t[i] != '\n'
  }

  /** Position `i` of `t` begins a line. */
  predicate LineStart(t: string, i: int) {
    0 <= i < |t| && (i == 0 || t[i - 1] == '\n')
  }

  /** `t` consists of whole lines, each beginning with at least `n` spaces. */
  ghost predicate IndentedLines(t: string, n: nat) {
    (t == "" || t[|t| - 1] == '\n')
    && forall i :: LineStart(t, i) ==> i + n <= |t| && t[i..i + n] == Spaces(n)
  }

  /** Every header in the tree is a single line: no name, literal or
      operator in it contains a newline (the renderer copies them verbatim). */
  predicate FlatStmt(s: Stmt)
    requires PrintableStmt(s)
    decreases StmtSize(s), 0
  {
    BodyPrintable(s);
    NoNewline(Header(s)) && FlatBlock(Body(s))
    && (s.IfStmt? ==> FlatBlock(s.elseBranch))
  }

  predicate FlatBlock(ss: seq<Stmt>)
    requires PrintableBlock(ss)
    decreases StmtsSize(ss), 1
  {
    |ss| == 0 || (FlatStmt(ss[0]) && FlatBlock(ss[1..]))
  }

  /** A statement renders as lines indented by at least `indent`, and its
      nested block as lines indented by at least `indent + 2`. */
  lemma {:induction false} StmtLines(s: Stmt, indent: nat)
    requires PrintableStmt(s) && FlatStmt(s)
    ensures IndentedLines(StmtText(s, indent), indent)
    ensures PrintableBlock(Body(s)) && IndentedLines(BlockText(Body(s), indent + 2), indent + 2)
    decreases StmtSize(s), 0
  {
    BodyPrintable(s);
    var body := BlockText(Body(s), indent + 2);
    BlockLines(Body(s), indent + 2);
    LinesDeeper(body, indent, indent + 2);
    if s.IfStmt? {
      ElseLines(indent, s.elseBranch);
      LinesConcat(body, ElsePart(indent, s.elseBranch), indent);
    }
    LineLines(indent, Header(s));
    LinesConcat(Line(indent, Header(s)), Nested(s, indent), indent);
  }

  lemma {:induction false} ElseLines(indent: nat, e: seq<Stmt>)
    requires PrintableBlock(e) && FlatBlock(e)
    ensures IndentedLines(ElsePart(indent, e), indent)
    decreases StmtsSize(e), 2
  {
    if |e| > 0 {
      BlockLines(e, indent + 2);
      ElseLinesOf(indent, e);
    }
  }

  /** The `Else:` line followed by a block indented two further. */
  lemma ElseLinesOf(indent: nat, e: seq<Stmt>)
    requires PrintableBlock(e) && |e| > 0
    requires IndentedLines(BlockText(e, indent + 2), indent + 2)
    ensures IndentedLines(ElsePart(indent, e), indent)
  {
    LinesDeeper(BlockText(e, indent + 2), indent, indent + 2);
    LineLines(indent, "Else:");
    LinesConcat(Line(indent, "Else:"), BlockText(e, indent + 2), indent);
  }

  lemma {:induction false} BlockLines(ss: seq<Stmt>, indent: nat)
    requires PrintableBlock(ss) && FlatBlock(ss)
    ensures IndentedLines(BlockText(ss, indent), indent)
    decreases StmtsSize(ss), 1
  {
    if |ss| > 0 {
      StmtLines(ss[0], indent);
      BlockLines(ss[1..], indent);
      LinesConcat(StmtText(ss[0], indent), BlockText(ss[1..], indent), indent);
    }
  }

  lemma LineLines(indent: nat, h: string)
    requires NoNewline(h)
    ensures IndentedLines(Line(indent, h), indent)
  {
    var t := Line(indent, h);
    forall j | 0 <= j < |t| - 1
      ensures t[j] != '\n'
    {
      if j < indent {
        assert t[j] == Spaces(indent)[j];
      } else {
        assert t[j] == h[j - indent];
      }
    }
  }

  lemma LinesDeeper(t: string, n: nat, m: nat)
    requires n <= m && IndentedLines(t, m)
    ensures IndentedLines(t, n)
  {
    forall i | LineStart(t, i)
      ensures i + n <= |t| && t[i..i + n] == Spaces(n)
    {
      assert t[i..i + n] == t[i..i + m][..n];
    }
  }

  lemma LinesConcat(a: string, b: string, n: nat)
    requires IndentedLines(a, n) && IndentedLines(b, n)
    ensures IndentedLines(a + b, n)
  {
    var t := a + b;
    forall i | LineStart(t, i)
      ensures i + n <= |t| && t[i..i + n] == Spaces(n)
    {
      if i < |a| {
        assert LineStart(a, i);
        assert t[i..i + n] == a[i..i + n];
      } else {
        assert LineStart(b, i - |a|);
        assert t[i..i + n] == b[i - |a|..i - |a| + n];
      }
    }
  }
}
