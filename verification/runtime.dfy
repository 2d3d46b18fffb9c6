/** The tree-walking evaluator of `src/runtime.cpp`: `evaluateExpr`,
    `runStatement` and `execute`.

    The C++ threads its state through member fields (the current and the
    global scope, the function registry) and through `shared_ptr`s (lists,
    dicts, instances, scopes); here all of it is one `State` value that each
    step takes and returns. The C++ leaves a statement early by throwing
    `ReturnException`, `BreakException`, `ContinueException` or
    `RuntimeException`; here a step ends `Abrupt` with the matching
    `Outcome`. A `try` catches only a fault, a loop a break or continue, and
    a call a return; every other outcome passes through. Nothing in the
    evaluator itself faults: a fault comes only from a native.

    Recursion is bounded by `fuel`, which each loop pass, each user call and
    each import consume; a run that exhausts it ends `Stuck`. */
module Runtime {

  import opened Results
  import opened Ast
  import opened Values
  import opened Env
  import opened Ops
  import opened Natives
  import Parser

  /** How a statement, a block or an expression stops early. `Crash` is a
      C++ exception no `try` catches (a lex or parse error while
      importing, a native that throws a standard exception); `Stuck` is a
      point where the model stops: undefined behaviour in the C++, a float
      literal, or exhausted fuel. */
  datatype Outcome =
    | Return(value: Value)
    | Break
    | Continue
    | Fault(msg: string)
    | Crash(msg: string)
    | Stuck(why: string)

  /** The evaluator's state: every scope and object created so far, the
      current scope, the function registry and the names of the native
      registry. The global scope is scope 0. */
  datatype State = State(
    scopes: Scopes,
    env: nat,
    store: Store,
    funcs: map<string, FuncDecl>,
    natives: set<string>)

  const GlobalScope: nat := 0

  /** A fresh runtime (the `Runtime` constructor): one empty global scope,
      the current one, and every native registered. */
  const Initial: State := State([Scope(map[], None)], GlobalScope, [], map[], NativeNames)

  /** The end of a step: a value and the state after it, or an early
      outcome and the state at that point. */
  datatype Eval<T> = Done(value: T, st: State) | Abrupt(out: Outcome, st: State)
  {
    predicate IsFailure() { Abrupt? }

    function PropagateFailure<U>(): Eval<U>
      requires Abrupt?
    {
      Abrupt(out, st)
    }

    function Extract(): (r: Eval<T>)
      requires Done?
      ensures r.Done? && r == this
    {
      this
    }
  }

  /** What an unmodelled native does: it returns a value, possibly
      referring to objects it creates, or throws. */
  datatype Reply =
    | Answer(value: Value, created: seq<Object>)
    | Raise(msg: string)
    | Abort(msg: string)

  /** The world outside the evaluator: every native other than the four
      modelled here, the files `import` can read, and the front end that
      turns an imported file into a program. The evaluator takes the front
      end as a parameter so that its proofs do not carry the parser; a
      `Standard` host installs `Parser.ParseSource`. */
  datatype Host = Host(
    native: (string, seq<Value>, Store) -> Reply,
    files: map<string, string>,
    parse: string -> Result<Program>)

  /** The host of the interpreter: the given natives and files, and the
      lexer and parser of this model as the front end. */
  function Standard(native: (string, seq<Value>, Store) -> Reply, files: map<string, string>): Host
  {
    Host(native, files, Parser.ParseSource)
  }

  /** Early outcomes an expression can end with: a `return` never leaves
      the call that caught it. */
  predicate NoReturn<T>(r: Eval<T>) {
    r.Abrupt? ==> !r.out.Return?
  }

  /** What every step keeps: scopes and objects are only ever added (no
      handle is ever invalidated), an object keeps its kind and an instance
      its class, the current scope stays one that exists, and the native
      registry is fixed. */
  predicate Grows(st: State, st': State) {
    && |st'.scopes| >= |st.scopes|
    && |st'.store| >= |st.store|
    && (forall k :: 0 <= k < |st.store| ==> SameKind(st.store[k], st'.store[k]))
    && (st.env < |st.scopes| ==> st'.env < |st'.scopes|)
    && st'.natives == st.natives
  }

  predicate SameKind(a: Object, b: Object) {
    && (a.ListObj? <==> b.ListObj?)
    && (a.DictObj? <==> b.DictObj?)
    && (a.InstObj? ==> b.InstObj? && b.cls == a.cls)
  }

  // ---------------------------------------------------------------------
  // Natives and calls
  // ---------------------------------------------------------------------

  /** A registered native applied to evaluated arguments. */
  function Native(h: Host, f: string, vs: seq<Value>, st: State): (r: Eval<Value>)
    ensures r.st.env == st.env && r.st.scopes == st.scopes && r.st.funcs == st.funcs && Grows(st, r.st)
    ensures r.Abrupt? ==> r.out.Fault? || r.out.Crash?
  {
    if f == "len" then Done(Len(vs, st.store), st)
    else if f == "range" then
      var (v, s) := Range(vs, st.store);
      Done(v, st.(store := s))
    else if f == "list.add" then
      var (v, s) := ListAdd(vs, st.store);
      Done(v, st.(store := s))
    else if f == "list.pop" then
      var (v, s) := ListPop(vs, st.store);
      Done(v, st.(store := s))
    else
      match h.native(f, vs, st.store)
      case Answer(v, created) => Done(v, st.(store := st.store + created))
      case Raise(m) => Abrupt(Fault(m), st)
      case Abort(m) => Abrupt(Crash(m), st)
  }

  /** Runs a body in a new scope, enclosed by the global one, that holds
      `bindings`; on a normal end or a return, the caller's scope is
      current again and the value is the returned one, or nil. Any other
      outcome propagates and leaves the callee's scope current, as the C++
      does. */
  function Invoke(h: Host, body: seq<Stmt>, bindings: map<string, Value>, st: State, fuel: nat): (r: Eval<Value>)
    ensures NoReturn(r) && (r.Done? ==> r.st.env == st.env) && Grows(st, r.st)
    decreases fuel, 0, 0
  {
    if fuel == 0 then Abrupt(Stuck("out of fuel"), st)
    else
      var (scopes, callee) := Push(st.scopes, bindings, Some(GlobalScope));
      match RunBlock(h, body, st.(scopes := scopes, env := callee), fuel - 1)
      case Done(_, s) => Done(Nil, s.(env := st.env))
      case Abrupt(Return(v), s) => Done(v, s.(env := st.env))
      case Abrupt(o, s) => Abrupt(o, s)
  }

  /** A call by name: the native registry first, then the user functions;
      an arity mismatch or an unknown name is nil and runs nothing. */
  function Call(h: Host, f: string, vs: seq<Value>, st: State, fuel: nat): (r: Eval<Value>)
    ensures NoReturn(r) && (r.Done? ==> r.st.env == st.env) && Grows(st, r.st)
    decreases fuel, 0, 1
  {
    if f in st.natives then Native(h, f, vs, st)
    else if f in st.funcs then
      var fn := st.funcs[f];
      if |vs| != |fn.params| then Done(Nil, st)
      else Invoke(h, fn.body, Bind(map[], fn.params, vs), st, fuel)
    else Done(Nil, st)
  }

  // ---------------------------------------------------------------------
  // Expressions
  // ---------------------------------------------------------------------

  /** `evaluateExpr`, one case per node kind. */
  function EvalExpr(h: Host, e: Expr, st: State, fuel: nat): (r: Eval<Value>)
    ensures NoReturn(r) && (r.Done? ==> r.st.env == st.env) && Grows(st, r.st)
    decreases fuel, ExprSize(e), 1
  {
    match e
    case NumberExpr(n) => Done(Int(n), st)
    case FloatExpr(_) => Abrupt(Stuck("floating point is not modelled"), st)
    case StringExpr(s) => Done(Str(s), st)
    case CharExpr(c) => Done(Chr(c), st)
    case BoolExpr(b) => Done(Bool(b), st)
    case VariableExpr(n) => Done(Get(st.scopes, st.env, n), st)
    case ArrayExpr(es) => EvalArray(h, es, st, fuel)
    case DictExpr(ps) => EvalDict(h, ps, st, fuel)
    case IndexExpr(o, i) => EvalIndex(h, o, i, st, fuel)
    case NewExpr(c, args) => EvalNew(h, c, args, st, fuel)
    case ThisExpr => Done(Get(st.scopes, st.env, "this"), st)
    case GetExpr(o, n) => EvalGet(h, o, n, st, fuel)
    case SetExpr(o, n, v) => EvalSet(h, o, n, v, st, fuel)
    case MethodCallExpr(o, m, args) => EvalMethodCall(h, o, m, args, st, fuel)
    case CallExpr(f, args) => EvalCall(h, f, args, st, fuel)
    case BinaryExpr(op, l, r) => EvalBinary(h, op, l, r, st, fuel)
  }

  /** Arguments, left to right. */
  function EvalExprs(h: Host, es: seq<Expr>, st: State, fuel: nat): (r: Eval<seq<Value>>)
    ensures NoReturn(r) && (r.Done? ==> r.st.env == st.env && |r.value| == |es|) && Grows(st, r.st)
    decreases fuel, ExprsSize(es), 2
  {
    if |es| == 0 then Done([], st)
    else
      var v :- EvalExpr(h, es[0], st, fuel);
      var vs :- EvalExprs(h, es[1..], v.st, fuel);
      Done([v.value] + vs.value, vs.st)
  }

  /** A list literal: its elements left to right, in a new list. The C++
      allocates the list before evaluating the elements; handles are never
      observable, so the order does not matter. */
  function EvalArray(h: Host, es: seq<Expr>, st: State, fuel: nat): (r: Eval<Value>)
    ensures NoReturn(r) && (r.Done? ==> r.st.env == st.env) && Grows(st, r.st)
    decreases fuel, 1 + ExprsSize(es), 0
  {
    var vs :- EvalExprs(h, es, st, fuel);
    var (store, l) := Alloc(vs.st.store, ListObj(vs.value));
    Done(ListRef(l), vs.st.(store := store))
  }

  /** A dict literal: its pairs in order, in a new dict. */
  function EvalDict(h: Host, ps: seq<Pair>, st: State, fuel: nat): (r: Eval<Value>)
    ensures NoReturn(r) && (r.Done? ==> r.st.env == st.env) && Grows(st, r.st)
    decreases fuel, 1 + PairsSize(ps), 0
  {
    var es :- EvalPairs(h, ps, [], st, fuel);
    var (store, d) := Alloc(es.st.store, DictObj(es.value));
    Done(DictRef(d), es.st.(store := store))
  }

  /** The pairs of a dict literal, each key then its value, added to `acc`;
      a pair whose key is not a string is skipped. */
  function EvalPairs(h: Host, ps: seq<Pair>, acc: seq<Entry>, st: State, fuel: nat): (r: Eval<seq<Entry>>)
    ensures NoReturn(r) && (r.Done? ==> r.st.env == st.env) && Grows(st, r.st)
    decreases fuel, PairsSize(ps), 2
  {
    if |ps| == 0 then Done(acc, st)
    else
      assert PairsSize(ps) == ExprSize(ps[0].key) + ExprSize(ps[0].value) + PairsSize(ps[1..]);
      var k :- EvalExpr(h, ps[0].key, st, fuel);
      var v :- EvalExpr(h, ps[0].value, k.st, fuel);
      EvalPairs(h, ps[1..], if k.value.Str? then DictPut(acc, k.value.s, v.value) else acc, v.st, fuel)
  }

  /** `object[index]`: the object, then the index. */
  function EvalIndex(h: Host, o: Expr, i: Expr, st: State, fuel: nat): (r: Eval<Value>)
    ensures NoReturn(r) && (r.Done? ==> r.st.env == st.env) && Grows(st, r.st)
    decreases fuel, 1 + ExprSize(o) + ExprSize(i), 0
  {
    var ov :- EvalExpr(h, o, st, fuel);
    var iv :- EvalExpr(h, i, ov.st, fuel);
    Done(IndexValue(iv.st.store, ov.value, iv.value), iv.st)
  }

  /** `object.name`. */
  function EvalGet(h: Host, o: Expr, n: string, st: State, fuel: nat): (r: Eval<Value>)
    ensures NoReturn(r) && (r.Done? ==> r.st.env == st.env) && Grows(st, r.st)
    decreases fuel, 1 + ExprSize(o), 0
  {
    var ov :- EvalExpr(h, o, st, fuel);
    Done(FieldOf(ov.st.store, ov.value, n), ov.st)
  }

  /** `object.name = value`: nil, with the value not evaluated, when the
      object is not an instance; otherwise the field is written and the
      value is the result. */
  function EvalSet(h: Host, o: Expr, n: string, v: Expr, st: State, fuel: nat): (r: Eval<Value>)
    ensures NoReturn(r) && (r.Done? ==> r.st.env == st.env) && Grows(st, r.st)
    decreases fuel, 1 + ExprSize(o) + ExprSize(v), 0
  {
    var ov :- EvalExpr(h, o, st, fuel);
    if InstanceOf(ov.st.store, ov.value).None? then Done(Nil, ov.st)
    else
      var vv :- EvalExpr(h, v, ov.st, fuel);
      Done(vv.value, vv.st.(store := SetField(vv.st.store, ov.value.inst, n, vv.value)))
  }

  /** `new C(args)`: nil, with no argument evaluated, when `C` does not
      name a class; otherwise a new instance with no fields, on which
      `init` runs, if the class has one, with `this` and then the
      parameters bound (a parameter without an argument stays unbound). */
  function EvalNew(h: Host, c: string, args: seq<Expr>, st: State, fuel: nat): (r: Eval<Value>)
    ensures NoReturn(r) && (r.Done? ==> r.st.env == st.env) && Grows(st, r.st)
    decreases fuel, ExprsSize(args) + 1, 0
  {
    var cv := Get(st.scopes, st.env, c);
    if !cv.ClassVal? then Done(Nil, st)
    else
      var (store, i) := Alloc(st.store, InstObj(cv.cls, map[]));
      var st1 := st.(store := store);
      match FindMethod(cv.cls, "init")
      case None => Done(InstRef(i), st1)
      case Some(init) =>
        var vs :- EvalExprs(h, args, st1, fuel);
        var run :- Invoke(h, init.body, Bind(map["this" := InstRef(i)], init.params, vs.value), vs.st, fuel);
        Done(InstRef(i), run.st)
  }

  /** `object.m(args)`: the object first. */
  function EvalMethodCall(h: Host, o: Expr, m: string, args: seq<Expr>, st: State, fuel: nat): (r: Eval<Value>)
    ensures NoReturn(r) && (r.Done? ==> r.st.env == st.env) && Grows(st, r.st)
    decreases fuel, 1 + ExprSize(o) + ExprsSize(args), 0
  {
    var ov :- EvalExpr(h, o, st, fuel);
    EvalMethod(h, ov.value, m, args, ov.st, fuel)
  }

  /** A method call on an evaluated object: nil, with no argument
      evaluated, when the object is not an instance or its class has no
      method `m`; otherwise the method runs with `this` and then the
      parameters bound. */
  function EvalMethod(h: Host, obj: Value, m: string, args: seq<Expr>, st: State, fuel: nat): (r: Eval<Value>)
    ensures NoReturn(r) && (r.Done? ==> r.st.env == st.env) && Grows(st, r.st)
    decreases fuel, ExprsSize(args) + 1, 1
  {
    match InstanceOf(st.store, obj)
    case None => Done(Nil, st)
    case Some(inst) =>
      match FindMethod(inst.cls, m)
      case None => Done(Nil, st)
      case Some(fn) =>
        var vs :- EvalExprs(h, args, st, fuel);
        Invoke(h, fn.body, Bind(map["this" := obj], fn.params, vs.value), vs.st, fuel)
  }

  /** `f(args)`: every argument first, then the call. */
  function EvalCall(h: Host, f: string, args: seq<Expr>, st: State, fuel: nat): (r: Eval<Value>)
    ensures NoReturn(r) && (r.Done? ==> r.st.env == st.env) && Grows(st, r.st)
    decreases fuel, 1 + ExprsSize(args), 0
  {
    var vs :- EvalExprs(h, args, st, fuel);
    Call(h, f, vs.value, vs.st, fuel)
  }

  /** `l op r`: both operands, left then right, whatever the operator. */
  function EvalBinary(h: Host, op: char, l: Expr, r: Expr, st: State, fuel: nat): (res: Eval<Value>)
    ensures NoReturn(res) && (res.Done? ==> res.st.env == st.env) && Grows(st, res.st)
    decreases fuel, 1 + ExprSize(l) + ExprSize(r), 0
  {
    var lv :- EvalExpr(h, l, st, fuel);
    var rv :- EvalExpr(h, r, lv.st, fuel);
    match BinaryOp(op, lv.value, rv.value)
    case Some(v) => Done(v, rv.st)
    case None => Abrupt(Stuck("undefined behaviour in C++"), rv.st)
  }

  // ---------------------------------------------------------------------
  // Statements
  // ---------------------------------------------------------------------

  /** `runStatement`, one case per statement kind. Statements the C++ has
      no case for (an app or window declaration, `connect`, an update) and
      the ones that only reach the terminal (`clear`, `sh`) change
      nothing. */
  function RunStmt(h: Host, s: Stmt, st: State, fuel: nat): (r: Eval<()>)
    ensures Grows(st, r.st)
    decreases fuel, StmtSize(s), 1
  {
    if s.ExprStmt? then
      var v :- EvalExpr(h, s.expression, st, fuel);
      Done((), v.st)
    else if s.SetStmt? then RunSet(h, s.name, s.expression, st, fuel)
    else if s.SetIndexStmt? then RunSetIndex(h, s.list, s.index, s.newValue, st, fuel)
    else if s.CallStmt? then
      var c :- EvalCall(h, s.func, s.args, st, fuel);
      Done((), c.st)
    else if s.IfStmt? then RunIf(h, s.condition, s.thenBranch, s.elseBranch, st, fuel)
    else if s.WhileStmt? then While(h, s.condition, s.body, st, fuel)
    else if s.ForStmt? then RunFor(h, s.iteratorName, s.collection, s.body, st, fuel)
    else if s.TryStmt? then RunTry(h, s.tryBody, s.catchBody, s.errorVar, st, fuel)
    else if s.ReturnStmt? then RunReturn(h, s.result, st, fuel)
    else if s.BreakStmt? then Abrupt(Break, st)
    else if s.ContinueStmt? then Abrupt(Continue, st)
    else if s.FuncStmt? then Done((), st.(funcs := st.funcs[s.decl.name := s.decl]))
    else if s.ClassDecl? then Done((), DeclareClass(s.name, s.methods, st))
    else if s.ImportStmt? then Import(h, s.path, st, fuel)
    else Done((), st)
  }

  /** The statements of a block in order, up to the first early outcome. */
  function RunBlock(h: Host, ss: seq<Stmt>, st: State, fuel: nat): (r: Eval<()>)
    ensures Grows(st, r.st)
    decreases fuel, StmtsSize(ss), 2
  {
    if |ss| == 0 then Done((), st)
    else
      var r :- RunStmt(h, ss[0], st, fuel);
      RunBlock(h, ss[1..], r.st, fuel)
  }

  /** `set n = e` (and every assignment form the parser desugars to it):
      `define` in the current scope. */
  function RunSet(h: Host, n: string, e: Expr, st: State, fuel: nat): (r: Eval<()>)
    ensures Grows(st, r.st)
    decreases fuel, 1 + ExprSize(e), 0
  {
    var v :- EvalExpr(h, e, st, fuel);
    Done((), v.st.(scopes := Define(v.st.scopes, v.st.env, n, v.value)))
  }

  /** `list[index] = value`: the list, the index, the value, then the
      write. */
  function RunSetIndex(h: Host, l: Expr, i: Expr, x: Expr, st: State, fuel: nat): (r: Eval<()>)
    ensures Grows(st, r.st)
    decreases fuel, 1 + ExprSize(l) + ExprSize(i) + ExprSize(x), 0
  {
    var lv :- EvalExpr(h, l, st, fuel);
    var iv :- EvalExpr(h, i, lv.st, fuel);
    var xv :- EvalExpr(h, x, iv.st, fuel);
    Done((), xv.st.(store := SetIndex(xv.st.store, lv.value, iv.value, xv.value)))
  }

  /** `if`: the then-branch when the condition is truthy, else the
      else-branch. */
  function RunIf(h: Host, c: Expr, t: seq<Stmt>, e: seq<Stmt>, st: State, fuel: nat): (r: Eval<()>)
    ensures Grows(st, r.st)
    decreases fuel, 1 + ExprSize(c) + StmtsSize(t) + StmtsSize(e), 0
  {
    var cv :- EvalExpr(h, c, st, fuel);
    if IsTruthy(cv.value) then RunBlock(h, t, cv.st, fuel) else RunBlock(h, e, cv.st, fuel)
  }

  /** `while`: the condition is evaluated before every pass; a break ends the
      loop, a continue ends only the pass. A break or continue thrown
      while the condition itself is evaluated is not caught. */
  function While(h: Host, c: Expr, b: seq<Stmt>, st: State, fuel: nat): (r: Eval<()>)
    ensures Grows(st, r.st)
    decreases fuel, 1 + ExprSize(c) + StmtsSize(b), 0
  {
    var cv :- EvalExpr(h, c, st, fuel);
    if !IsTruthy(cv.value) then Done((), cv.st)
    else
      var r := RunBlock(h, b, cv.st, fuel);
      if r.Abrupt? && r.out.Break? then Done((), r.st)
      else if r.Abrupt? && !r.out.Continue? then r
      else if fuel == 0 then Abrupt(Stuck("out of fuel"), r.st)
      else While(h, c, b, r.st, fuel - 1)
  }

  /** `for n in c`: a collection that is not a list runs no pass;
      otherwise `n` is first defined as 0 in the current scope and the
      passes follow. */
  function RunFor(h: Host, n: string, c: Expr, b: seq<Stmt>, st: State, fuel: nat): (r: Eval<()>)
    ensures Grows(st, r.st)
    decreases fuel, 1 + ExprSize(c) + StmtsSize(b), 0
  {
    var cv :- EvalExpr(h, c, st, fuel);
    match ListOf(cv.st.store, cv.value)
    case None => Done((), cv.st)
    case Some(items) =>
      ForEach(h, n, cv.value.list, |items|, 0, b, cv.st.(scopes := Define(cv.st.scopes, cv.st.env, n, Int(0))), fuel)
  }

  /** The passes of `for` over the list at handle `l`, from element `k`:
      each pass assigns the element to the iterator and runs the body. The
      C++ range-for keeps iterators into the vector, so a body that
      changes the list's length leaves them dangling: the model stops
      there. */
  function ForEach(h: Host, n: string, l: Handle, len: nat, k: nat, b: seq<Stmt>, st: State, fuel: nat): (r: Eval<()>)
    ensures Grows(st, r.st)
    decreases fuel, 1 + StmtsSize(b), 0
  {
    match ListOf(st.store, ListRef(l))
    case None => Abrupt(Stuck("the iterated list is gone"), st)
    case Some(items) =>
      if |items| != len then Abrupt(Stuck("list resized while iterated"), st)
      else if k >= len then Done((), st)
      else
        var r := RunBlock(h, b, st.(scopes := Assign(st.scopes, st.env, n, items[k])), fuel);
        if r.Abrupt? && r.out.Break? then Done((), r.st)
        else if r.Abrupt? && !r.out.Continue? then r
        else if fuel == 0 then Abrupt(Stuck("out of fuel"), r.st)
        else ForEach(h, n, l, len, k + 1, b, r.st, fuel - 1)
  }

  /** `try`: only a fault is caught. The catch body runs in a new scope,
      enclosed by the scope current at the fault, that binds the error
      variable to the message; after a normal end of the catch body that
      scope is current again. */
  function RunTry(h: Host, t: seq<Stmt>, c: seq<Stmt>, v: string, st: State, fuel: nat): (r: Eval<()>)
    ensures Grows(st, r.st)
    decreases fuel, 1 + StmtsSize(t) + StmtsSize(c), 0
  {
    var r := RunBlock(h, t, st, fuel);
    if r.Abrupt? && r.out.Fault? then
      var (scopes, sc) := Push(r.st.scopes, map[v := Str(r.out.msg)], Some(r.st.env));
      var cr := RunBlock(h, c, r.st.(scopes := scopes, env := sc), fuel);
      if cr.Done? then Done((), cr.st.(env := r.st.env)) else cr
    else r
  }

  /** `return`, with nil for a bare `return`. */
  function RunReturn(h: Host, e: Option<Expr>, st: State, fuel: nat): (r: Eval<()>)
    ensures Grows(st, r.st)
    decreases fuel, 1 + (if e.Some? then ExprSize(e.value) else 0), 0
  {
    match e
    case None => Abrupt(Return(Nil), st)
    case Some(x) =>
      var v :- EvalExpr(h, x, st, fuel);
      Abrupt(Return(v.value), v.st)
  }

  /** A class declaration: a class value, with its method table, defined
      in the current scope. */
  function DeclareClass(n: string, ms: seq<FuncDecl>, st: State): State {
    st.(scopes := Define(st.scopes, st.env, n, ClassVal(Class(n, MethodTable(ms)))))
  }

  /** `import`: a missing file changes nothing; otherwise the file is
      lexed and parsed (an error there is not catchable) and its
      statements run in the current scope. */
  function Import(h: Host, path: string, st: State, fuel: nat): (r: Eval<()>)
    ensures Grows(st, r.st)
    decreases fuel, 0, 0
  {
    if path !in h.files then Done((), st)
    else match h.parse(h.files[path])
      case Err(m) => Abrupt(Crash(m), st)
      case Ok(prog) =>
        if fuel == 0 then Abrupt(Stuck("out of fuel"), st)
        else RunBlock(h, prog.statements, st, fuel - 1)
  }

  /** `execute`: the statements of a program in order. An early outcome
      left at the end is an exception that escapes the interpreter. */
  function Execute(h: Host, p: Program, st: State, fuel: nat): (r: Eval<()>)
    ensures Grows(st, r.st)
  {
    RunBlock(h, p.statements, st, fuel)
  }
}
