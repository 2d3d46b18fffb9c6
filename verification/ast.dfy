/** The syntax tree the parser builds and the evaluator walks. The node
    shapes are the ones `src/parser.cpp` constructs and `src/runtime.cpp`
    inspects; `include/ast.h` declares only some of them, and some with an
    older shape (a `ForStmt` over a range string, a `CallStmt` with a single
    argument). Constructor names follow the C++ class names. */
module Ast {

  import opened Results

  datatype Expr =
    | NumberExpr(n: int)
      /** A float literal keeps its token text: floating point is not modelled. */
    | FloatExpr(text: string)
    | StringExpr(s: string)
    | CharExpr(c: char)
    | BoolExpr(b: bool)
    | VariableExpr(name: string)
    | BinaryExpr(op: char, lhs: Expr, rhs: Expr)
    | ArrayExpr(elements: seq<Expr>)
    | DictExpr(pairs: seq<Pair>)
    | IndexExpr(obj: Expr, index: Expr)
    | GetExpr(obj: Expr, name: string)
    | SetExpr(obj: Expr, name: string, value: Expr)
    | MethodCallExpr(obj: Expr, methodName: string, args: seq<Expr>)
    | CallExpr(func: string, args: seq<Expr>)
    | NewExpr(className: string, args: seq<Expr>)
    | ThisExpr

  datatype Pair = Pair(key: Expr, value: Expr)

  /** A function or method declaration: name, parameter names, body. */
  datatype FuncDecl = FuncDecl(name: string, params: seq<string>, body: seq<Stmt>)

  datatype Stmt =
    | ClearStmt
    | ClassDecl(name: string, methods: seq<FuncDecl>)
    | ImportStmt(path: string)
    | SetStmt(name: string, expression: Expr)
    | AppDecl(name: string, body: seq<Stmt>)
      /** `None` is the C++ null expression of a bare `return`. */
    | ReturnStmt(result: Option<Expr>)
    | ForStmt(iteratorName: string, collection: Expr, body: seq<Stmt>)
    | WhileStmt(condition: Expr, body: seq<Stmt>)
    | IfStmt(condition: Expr, thenBranch: seq<Stmt>, elseBranch: seq<Stmt>)
    | WindowDecl(name: string, body: seq<Stmt>)
    | FuncStmt(decl: FuncDecl)
    | ConnectStmt(source: string, event: string, target: string)
    | TryStmt(tryBody: seq<Stmt>, catchBody: seq<Stmt>, errorVar: string)
    | BreakStmt
    | ContinueStmt
    | PropertyStmt(name: string, setting: string)
    | UpdateStmt(name: string, op: string)
    | CallStmt(func: string, args: seq<Expr>)
    | ExprStmt(expression: Expr)
    | SetIndexStmt(list: Expr, index: Expr, newValue: Expr)

  datatype Program = Program(statements: seq<Stmt>)

  // ---------------------------------------------------------------------
  // Sizes, the termination measure of everything that walks the tree
  // ---------------------------------------------------------------------

  function ExprSize(e: Expr): (n: nat)
    ensures n >= 1
  {
    match e
    case BinaryExpr(_, l, r) => 1 + ExprSize(l) + ExprSize(r)
    case ArrayExpr(es) => 1 + ExprsSize(es)
    case DictExpr(ps) => 1 + PairsSize(ps)
    case IndexExpr(o, i) => 1 + ExprSize(o) + ExprSize(i)
    case GetExpr(o, _) => 1 + ExprSize(o)
    case SetExpr(o, _, v) => 1 + ExprSize(o) + ExprSize(v)
    case MethodCallExpr(o, _, args) => 1 + ExprSize(o) + ExprsSize(args)
    case CallExpr(_, args) => 1 + ExprsSize(args)
    case NewExpr(_, args) => 1 + ExprsSize(args)
    case _ => 1
  }

  function ExprsSize(es: seq<Expr>): (n: nat)
  {
    if |es| == 0 then 0 else ExprSize(es[0]) + ExprsSize(es[1..])
  }

  function PairsSize(ps: seq<Pair>): (n: nat)
  {
    if |ps| == 0 then 0 else PairSize(ps[0]) + PairsSize(ps[1..])
  }

  function PairSize(p: Pair): (n: nat)
  {
    ExprSize(p.key) + ExprSize(p.value)
  }

  function StmtSize(s: Stmt): (n: nat)
    ensures n >= 1
  {
    match s
    case SetStmt(_, e) => 1 + ExprSize(e)
    case AppDecl(_, b) => 1 + StmtsSize(b)
    case ReturnStmt(v) => 1 + (if v.Some? then ExprSize(v.value) else 0)
    case ForStmt(_, c, b) => 1 + ExprSize(c) + StmtsSize(b)
    case WhileStmt(c, b) => 1 + ExprSize(c) + StmtsSize(b)
    case IfStmt(c, t, e) => 1 + ExprSize(c) + StmtsSize(t) + StmtsSize(e)
    case WindowDecl(_, b) => 1 + StmtsSize(b)
    case FuncStmt(d) => 1 + StmtsSize(d.body)
    case TryStmt(t, c, _) => 1 + StmtsSize(t) + StmtsSize(c)
    case CallStmt(_, args) => 1 + ExprsSize(args)
    case ExprStmt(e) => 1 + ExprSize(e)
    case SetIndexStmt(l, i, v) => 1 + ExprSize(l) + ExprSize(i) + ExprSize(v)
    case _ => 1
  }

  /** The first nested block of a statement: the body of a loop or a
      declaration, the then-branch of a conditional; empty for the rest. */
  function Body(s: Stmt): (b: seq<Stmt>)
    ensures StmtsSize(b) < StmtSize(s)
  {
    match s
    case AppDecl(_, b) => b
    case ForStmt(_, _, b) => b
    case WhileStmt(_, b) => b
    case IfStmt(_, t, _) => t
    case WindowDecl(_, b) => b
    case FuncStmt(d) => d.body
    case _ => []
  }

  function StmtsSize(ss: seq<Stmt>): (n: nat)
  {
    if |ss| == 0 then 0 else StmtSize(ss[0]) + StmtsSize(ss[1..])
  }
}
