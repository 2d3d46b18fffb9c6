/** What the evaluator of `src/runtime.cpp` promises, stated over the
    model of `runtime.dfy`: how blocks compose, how calls, loops and `try`
    route the early outcomes, and what the object operations leave behind. */
module RuntimeFacts {

  import opened Results
  import opened Ast
  import opened Values
  import opened Env
  import opened Ops
  import opened Natives
  import opened Runtime

  // ---------------------------------------------------------------------
  // Blocks
  // ---------------------------------------------------------------------

  /** Running `a + b` runs `a`, then `b` from where `a` left off; an early
      outcome in `a` skips `b`. */
  lemma {:induction false} BlockAppend(h: Host, a: seq<Stmt>, b: seq<Stmt>, st: State, fuel: nat)
    ensures RunBlock(h, a + b, st, fuel) ==
      match RunBlock(h, a, st, fuel)
      case Done(_, s) => RunBlock(h, b, s, fuel)
      case Abrupt(o, s) => Abrupt(o, s)
    decreases |a|
  {
    if |a| == 0 {
      assert a + b == b;
    } else {
      assert (a + b)[0] == a[0] && (a + b)[1..] == a[1..] + b;
      var r := RunStmt(h, a[0], st, fuel);
      if r.Done? {
        BlockAppend(h, a[1..], b, r.st, fuel);
      }
    }
  }

  /** `execute` of two programs one after the other is `execute` of their
      statements joined. */
  lemma ExecuteAppend(h: Host, p: Program, q: Program, st: State, fuel: nat)
    ensures Execute(h, Program(p.statements + q.statements), st, fuel) ==
      match Execute(h, p, st, fuel)
      case Done(_, s) => Execute(h, q, s, fuel)
      case Abrupt(o, s) => Abrupt(o, s)
  {
    BlockAppend(h, p.statements, q.statements, st, fuel);
  }

  // ---------------------------------------------------------------------
  // Conditionals and operators
  // ---------------------------------------------------------------------

  /** `if` runs the then-branch exactly when the condition is truthy, from
      the state the condition left. */
  lemma IfTruthy(h: Host, c: Expr, t: seq<Stmt>, e: seq<Stmt>, st: State, fuel: nat)
    requires EvalExpr(h, c, st, fuel).Done?
    ensures var cv := EvalExpr(h, c, st, fuel);
      RunStmt(h, IfStmt(c, t, e), st, fuel) == RunBlock(h, if IsTruthy(cv.value) then t else e, cv.st, fuel)
  {
  }

  /** Both operands are evaluated, left then right, whatever the operator
      and whatever the left value: `false and f()` still calls `f`, and an
      early outcome of the right operand is the outcome of the whole. */
  lemma BothOperands(h: Host, op: char, l: Expr, r: Expr, st: State, fuel: nat)
    requires EvalExpr(h, l, st, fuel).Done?
    ensures var lv := EvalExpr(h, l, st, fuel);
      var rv := EvalExpr(h, r, lv.st, fuel);
      var res := EvalExpr(h, BinaryExpr(op, l, r), st, fuel);
      && (rv.Abrupt? ==> res == rv)
      && (rv.Done? && BinaryOp(op, lv.value, rv.value).Some? ==>
            res == Done(BinaryOp(op, lv.value, rv.value).value, rv.st))
  {
  }

  // ---------------------------------------------------------------------
  // Calls
  // ---------------------------------------------------------------------

  /** A registered native answers a call by its name, whatever user
      function of the same name is declared. */
  lemma NativeFirst(h: Host, f: string, args: seq<Expr>, st: State, fuel: nat)
    requires EvalExprs(h, args, st, fuel).Done? && f in st.natives
    ensures var a := EvalExprs(h, args, st, fuel);
      EvalExpr(h, CallExpr(f, args), st, fuel) == Native(h, f, a.value, a.st)
  {
    var a := EvalExprs(h, args, st, fuel);
    assert EvalCall(h, f, args, st, fuel) == Call(h, f, a.value, a.st, fuel);
    assert EvalExpr(h, CallExpr(f, args), st, fuel) == EvalCall(h, f, args, st, fuel);
  }

  /** An unknown name, or a user function called with the wrong number of
      arguments, is nil: no body runs and nothing but the arguments has
      been evaluated. */
  lemma CallMisses(h: Host, f: string, args: seq<Expr>, st: State, fuel: nat)
    requires EvalExprs(h, args, st, fuel).Done? && f !in st.natives
    requires var a := EvalExprs(h, args, st, fuel);
      f in a.st.funcs ==> |args| != |a.st.funcs[f].params|
    ensures EvalExpr(h, CallExpr(f, args), st, fuel) == Done(Nil, EvalExprs(h, args, st, fuel).st)
  {
    var a := EvalExprs(h, args, st, fuel);
    assert Call(h, f, a.value, a.st, fuel) == Done(Nil, a.st);
    assert EvalCall(h, f, args, st, fuel) == Call(h, f, a.value, a.st, fuel);
    assert EvalExpr(h, CallExpr(f, args), st, fuel) == EvalCall(h, f, args, st, fuel);
  }

  /** A body `return n` returns what `n` reads in the callee's scope: its
      binding there, or else the global one; the caller's own scopes are
      not visible, and the caller's scope is current again afterwards. */
  lemma CalleeSees(h: Host, bindings: map<string, Value>, n: string, st: State, fuel: nat)
    requires fuel > 0 && |st.scopes| > 0
    ensures Invoke(h, [ReturnStmt(Some(VariableExpr(n)))], bindings, st, fuel) ==
      Done(if n in bindings then bindings[n] else Get(st.scopes, GlobalScope, n),
           st.(scopes := st.scopes + [Scope(bindings, Some(GlobalScope))]))
  {
    var (scopes, callee) := Push(st.scopes, bindings, Some(GlobalScope));
    var cs := st.(scopes := scopes, env := callee);
    var v := Get(scopes, callee, n);
    PushGet(st.scopes, bindings, GlobalScope, n);
    assert EvalExpr(h, VariableExpr(n), cs, fuel - 1) == Done(v, cs);
    assert RunReturn(h, Some(VariableExpr(n)), cs, fuel - 1) == Abrupt(Return(v), cs);
    assert RunStmt(h, ReturnStmt(Some(VariableExpr(n))), cs, fuel - 1) == Abrupt(Return(v), cs);
    assert RunBlock(h, [ReturnStmt(Some(VariableExpr(n)))], cs, fuel - 1) == Abrupt(Return(v), cs);
  }

  /** A body that ends without `return` yields nil. */
  lemma NoReturnIsNil(h: Host, body: seq<Stmt>, bindings: map<string, Value>, st: State, fuel: nat)
    requires fuel > 0
    requires RunBlock(h, body, st.(scopes := st.scopes + [Scope(bindings, Some(GlobalScope))], env := |st.scopes|), fuel - 1).Done?
    ensures Invoke(h, body, bindings, st, fuel).Done? && Invoke(h, body, bindings, st, fuel).value == Nil
  {
  }

  /** The statements after a `return` do not run. */
  lemma ReturnSkipsRest(h: Host, e: Option<Expr>, rest: seq<Stmt>, st: State, fuel: nat)
    ensures RunBlock(h, [ReturnStmt(e)] + rest, st, fuel) == RunStmt(h, ReturnStmt(e), st, fuel)
  {
    BlockAppend(h, [ReturnStmt(e)], rest, st, fuel);
  }

  // ---------------------------------------------------------------------
  // Loops
  // ---------------------------------------------------------------------

  /** A `while` whose condition is falsy ends, from the state the
      condition left. */
  lemma WhileExits(h: Host, c: Expr, b: seq<Stmt>, st: State, fuel: nat)
    requires EvalExpr(h, c, st, fuel).Done? && !IsTruthy(EvalExpr(h, c, st, fuel).value)
    ensures RunStmt(h, WhileStmt(c, b), st, fuel) == Done((), EvalExpr(h, c, st, fuel).st)
  {
  }

  /** After a pass that ends normally or with `continue`, the condition is
      evaluated again, from the state the pass left. */
  lemma WhileRetests(h: Host, c: Expr, b: seq<Stmt>, st: State, fuel: nat)
    requires fuel > 0
    requires EvalExpr(h, c, st, fuel).Done? && IsTruthy(EvalExpr(h, c, st, fuel).value)
    requires var r := RunBlock(h, b, EvalExpr(h, c, st, fuel).st, fuel); r.Done? || r.out.Continue?
    ensures While(h, c, b, st, fuel) == While(h, c, b, RunBlock(h, b, EvalExpr(h, c, st, fuel).st, fuel).st, fuel - 1)
  {
  }

  /** A `break` ends only the loop it is in: the statements after the loop
      run next. */
  lemma BreakEndsLoop(h: Host, c: Expr, b: seq<Stmt>, rest: seq<Stmt>, st: State, fuel: nat)
    requires EvalExpr(h, c, st, fuel).Done? && IsTruthy(EvalExpr(h, c, st, fuel).value)
    requires var r := RunBlock(h, b, EvalExpr(h, c, st, fuel).st, fuel); r.Abrupt? && r.out.Break?
    ensures RunBlock(h, [WhileStmt(c, b)] + rest, st, fuel) ==
      RunBlock(h, rest, RunBlock(h, b, EvalExpr(h, c, st, fuel).st, fuel).st, fuel)
  {
    var cv := EvalExpr(h, c, st, fuel);
    var r := RunBlock(h, b, cv.st, fuel);
    assert RunStmt(h, WhileStmt(c, b), st, fuel) == Done((), r.st);
    assert RunBlock(h, [WhileStmt(c, b)], st, fuel) == Done((), r.st);
    BlockAppend(h, [WhileStmt(c, b)], rest, st, fuel);
  }

  /** `for` over a value that is not a list runs no pass and binds no
      iterator. */
  lemma ForNonList(h: Host, n: string, c: Expr, b: seq<Stmt>, st: State, fuel: nat)
    requires var cv := EvalExpr(h, c, st, fuel); cv.Done? && ListOf(cv.st.store, cv.value).None?
    ensures RunStmt(h, ForStmt(n, c, b), st, fuel) == Done((), EvalExpr(h, c, st, fuel).st)
  {
  }

  /** After `for n in xs` with a body that does nothing, `n` is bound to
      the last element of `xs`, or to 0 when `xs` is empty. */
  lemma ForLeavesLast(h: Host, n: string, c: Expr, st: State, fuel: nat)
    requires st.env < |st.scopes|
    requires var cv := EvalExpr(h, c, st, fuel); cv.Done? && ListOf(cv.st.store, cv.value).Some?
    requires fuel >= |ListOf(EvalExpr(h, c, st, fuel).st.store, EvalExpr(h, c, st, fuel).value).value|
    ensures var items := ListOf(EvalExpr(h, c, st, fuel).st.store, EvalExpr(h, c, st, fuel).value).value;
      var r := RunStmt(h, ForStmt(n, c, []), st, fuel);
      r.Done? && Get(r.st.scopes, r.st.env, n) == if |items| == 0 then Int(0) else items[|items| - 1]
  {
    var cv := EvalExpr(h, c, st, fuel);
    var items := ListOf(cv.st.store, cv.value).value;
    var s0 := cv.st.(scopes := Define(cv.st.scopes, cv.st.env, n, Int(0)));
    DefineGet(cv.st.scopes, cv.st.env, n, Int(0), n);
    EmptyPasses(h, n, cv.value.list, items, 0, s0, fuel);
  }

  /** What the passes of an empty-bodied `for` from element `k`, begun in
      `st`, leave as `r`: a normal end that changes only the iterator,
      which holds the last element; nothing at all when no element is
      left. */
  ghost predicate LeavesLast(r: Eval<()>, st: State, n: string, items: seq<Value>, k: nat)
  {
    && r.Done? && r.st.env == st.env && r.st.store == st.store && |r.st.scopes| == |st.scopes|
    && (k < |items| ==> r.st.env < |r.st.scopes| && Get(r.st.scopes, r.st.env, n) == items[|items| - 1])
    && (k == |items| ==> r.st == st)
  }

  /** The passes of an empty-bodied `for` from element `k`: they end
      normally, change only the iterator, and leave it at the last
      element. */
  lemma {:induction false} EmptyPasses(h: Host, n: string, l: Handle, items: seq<Value>, k: nat, st: State, fuel: nat)
    requires st.env < |st.scopes|
    requires ListOf(st.store, ListRef(l)) == Some(items)
    requires k <= |items| && fuel >= |items| - k
    ensures LeavesLast(ForEach(h, n, l, |items|, k, [], st, fuel), st, n, items, k)
    decreases |items| - k
  {
    if k < |items| {
      var s1 := st.(scopes := Assign(st.scopes, st.env, n, items[k]));
      EmptyPass(h, n, l, items, k, st, fuel);
      AssignGet(st.scopes, st.env, n, items[k], n);
      EmptyPasses(h, n, l, items, k + 1, s1, fuel - 1);
      PassLeavesLast(ForEach(h, n, l, |items|, k + 1, [], s1, fuel - 1), st, s1, n, items, k);
    } else {
      ForEnds(h, n, l, |items|, k, [], st, fuel);
    }
  }

  /** One pass of an empty-bodied `for`: the iterator is assigned the
      element and the loop goes on to the next. */
  lemma EmptyPass(h: Host, n: string, l: Handle, items: seq<Value>, k: nat, st: State, fuel: nat)
    requires st.env < |st.scopes|
    requires ListOf(st.store, ListRef(l)) == Some(items) && k < |items| && fuel > 0
    ensures ForEach(h, n, l, |items|, k, [], st, fuel)
      == ForEach(h, n, l, |items|, k + 1, [], st.(scopes := Assign(st.scopes, st.env, n, items[k])), fuel - 1)
  {
    var s1 := st.(scopes := Assign(st.scopes, st.env, n, items[k]));
    assert RunBlock(h, [], s1, fuel) == Done((), s1);
  }

  /** A pass that assigned element `k` in `s1` and changed nothing else
      extends what the later passes leave back to the state before it. */
  lemma PassLeavesLast(r: Eval<()>, st: State, s1: State, n: string, items: seq<Value>, k: nat)
    requires k < |items| && LeavesLast(r, s1, n, items, k + 1)
    requires s1.env == st.env && s1.store == st.store && |s1.scopes| == |st.scopes| && st.env < |st.scopes|
    requires Get(s1.scopes, s1.env, n) == items[k]
    ensures LeavesLast(r, st, n, items, k)
  {
  }

  /** One pass of `for`, whatever the body: the iterator is assigned the
      element, then the body runs; a break ends the loop with the state
      the pass left, a continue or a normal end goes on to the next
      element, and every other outcome leaves the loop. */
  lemma ForPass(h: Host, n: string, l: Handle, items: seq<Value>, k: nat, b: seq<Stmt>, st: State, fuel: nat)
    requires st.env < |st.scopes|
    requires ListOf(st.store, ListRef(l)) == Some(items) && k < |items|
    ensures var s := st.(scopes := Assign(st.scopes, st.env, n, items[k]));
      var r := RunBlock(h, b, s, fuel);
      var f := ForEach(h, n, l, |items|, k, b, st, fuel);
      && Get(s.scopes, s.env, n) == items[k]
      && (r.Abrupt? && r.out.Break? ==> f == Done((), r.st))
      && (r.Abrupt? && !r.out.Break? && !r.out.Continue? ==> f == r)
      && ((r.Done? || r.out.Continue?) && fuel > 0 ==> f == ForEach(h, n, l, |items|, k + 1, b, r.st, fuel - 1))
  {
    AssignGet(st.scopes, st.env, n, items[k], n);
  }

  /** The passes of `for` end after the last element, and stop the model
      when the list no longer has the length it had when the loop began. */
  lemma ForEnds(h: Host, n: string, l: Handle, len: nat, k: nat, b: seq<Stmt>, st: State, fuel: nat)
    requires ListOf(st.store, ListRef(l)).Some?
    ensures |ListOf(st.store, ListRef(l)).value| == len && k >= len ==> ForEach(h, n, l, len, k, b, st, fuel) == Done((), st)
    ensures |ListOf(st.store, ListRef(l)).value| != len ==>
      ForEach(h, n, l, len, k, b, st, fuel) == Abrupt(Stuck("list resized while iterated"), st)
  {
  }

  /** A `break` in the first pass of `for` ends only that loop: the
      statements after it run next, from the state the pass left. */
  lemma ForBreakEndsLoop(h: Host, n: string, c: Expr, b: seq<Stmt>, rest: seq<Stmt>, st: State, fuel: nat)
    requires st.env < |st.scopes|
    requires var cv := EvalExpr(h, c, st, fuel);
      cv.Done? && ListOf(cv.st.store, cv.value).Some? && |ListOf(cv.st.store, cv.value).value| > 0
    requires var cv := EvalExpr(h, c, st, fuel);
      var s0 := Define(cv.st.scopes, cv.st.env, n, Int(0));
      var s1 := cv.st.(scopes := Assign(s0, cv.st.env, n, ListOf(cv.st.store, cv.value).value[0]));
      var r := RunBlock(h, b, s1, fuel); r.Abrupt? && r.out.Break?
    ensures var cv := EvalExpr(h, c, st, fuel);
      var s0 := Define(cv.st.scopes, cv.st.env, n, Int(0));
      var s1 := cv.st.(scopes := Assign(s0, cv.st.env, n, ListOf(cv.st.store, cv.value).value[0]));
      RunBlock(h, [ForStmt(n, c, b)] + rest, st, fuel) == RunBlock(h, rest, RunBlock(h, b, s1, fuel).st, fuel)
  {
    var cv := EvalExpr(h, c, st, fuel);
    var items := ListOf(cv.st.store, cv.value).value;
    var st0 := cv.st.(scopes := Define(cv.st.scopes, cv.st.env, n, Int(0)));
    var r := RunBlock(h, b, st0.(scopes := Assign(st0.scopes, st0.env, n, items[0])), fuel);
    ForPass(h, n, cv.value.list, items, 0, b, st0, fuel);
    assert RunStmt(h, ForStmt(n, c, b), st, fuel) == Done((), r.st);
    assert RunBlock(h, [ForStmt(n, c, b)], st, fuel) == Done((), r.st);
    BlockAppend(h, [ForStmt(n, c, b)], rest, st, fuel);
  }

  // ---------------------------------------------------------------------
  // try
  // ---------------------------------------------------------------------

  /** `try` passes a normal end, and every early outcome but a fault
      (return, break, continue, an uncatchable exception), through
      unchanged. */
  lemma TryPassesThrough(h: Host, t: seq<Stmt>, c: seq<Stmt>, v: string, st: State, fuel: nat)
    requires var r := RunBlock(h, t, st, fuel); r.Done? || !r.out.Fault?
    ensures RunStmt(h, TryStmt(t, c, v), st, fuel) == RunBlock(h, t, st, fuel)
  {
  }

  /** A fault runs the catch body from the state at the fault, so every
      effect before it persists, in a new scope that binds the error
      variable to the message and reads every other name as the scope at
      the fault does; after a normal end of the catch body, that scope is
      current again. */
  lemma TryCatches(h: Host, t: seq<Stmt>, c: seq<Stmt>, v: string, x: string, st: State, fuel: nat)
    requires var r := RunBlock(h, t, st, fuel); r.Abrupt? && r.out.Fault?
    ensures var r := RunBlock(h, t, st, fuel);
      var (scopes, e) := Push(r.st.scopes, map[v := Str(r.out.msg)], Some(r.st.env));
      var cs := r.st.(scopes := scopes, env := e);
      && RunStmt(h, TryStmt(t, c, v), st, fuel) ==
           (match RunBlock(h, c, cs, fuel)
            case Done(_, s) => Done((), s.(env := r.st.env))
            case Abrupt(o, s) => Abrupt(o, s))
      && Get(cs.scopes, cs.env, v) == Str(r.out.msg)
      && (x != v && r.st.env < |r.st.scopes| ==> Get(cs.scopes, cs.env, x) == Get(r.st.scopes, r.st.env, x))
  {
    var r := RunBlock(h, t, st, fuel);
    if r.st.env < |r.st.scopes| {
      PushGet(r.st.scopes, map[v := Str(r.out.msg)], r.st.env, x);
    }
  }

  // ---------------------------------------------------------------------
  // Objects
  // ---------------------------------------------------------------------

  /** `new C(args)` where `C` is not a class is nil, and evaluates no
      argument. */
  lemma NewNonClass(h: Host, c: string, args: seq<Expr>, st: State, fuel: nat)
    requires !Get(st.scopes, st.env, c).ClassVal?
    ensures EvalExpr(h, NewExpr(c, args), st, fuel) == Done(Nil, st)
  {
  }

  /** `new C(args)` of a class without `init` is a new instance of `C`
      with no fields; no argument is evaluated. */
  lemma NewWithoutInit(h: Host, c: string, args: seq<Expr>, f: string, st: State, fuel: nat)
    requires Get(st.scopes, st.env, c).ClassVal? && "init" !in Get(st.scopes, st.env, c).cls.methods
    ensures var r := EvalExpr(h, NewExpr(c, args), st, fuel);
      && r == Done(InstRef(|st.store|), st.(store := st.store + [InstObj(Get(st.scopes, st.env, c).cls, map[])]))
      && FieldOf(r.st.store, r.value, f) == Nil
  {
  }

  /** `new C(args)` of a class with `init`: a new instance with no fields
      is made, the arguments are evaluated, and `init` runs in a new scope,
      enclosed by the global one, that binds `this` to the instance and
      then the parameters; whatever `init` returns is dropped and the
      instance is the value. */
  lemma NewWithInit(h: Host, c: string, args: seq<Expr>, st: State, fuel: nat)
    requires Get(st.scopes, st.env, c).ClassVal? && "init" in Get(st.scopes, st.env, c).cls.methods
    requires fuel > 0
    ensures var cls := Get(st.scopes, st.env, c).cls;
      var init := cls.methods["init"];
      var inst := InstRef(|st.store|);
      var vs := EvalExprs(h, args, st.(store := st.store + [InstObj(cls, map[])]), fuel);
      var r := EvalExpr(h, NewExpr(c, args), st, fuel);
      && (vs.Abrupt? ==> r == Abrupt(vs.out, vs.st))
      && (vs.Done? ==>
            var callee := vs.st.(scopes := vs.st.scopes + [Scope(Bind(map["this" := inst], init.params, vs.value), Some(GlobalScope))],
                                 env := |vs.st.scopes|);
            var run := RunBlock(h, init.body, callee, fuel - 1);
            && (run.Done? || run.out.Return? ==> r == Done(inst, run.st.(env := st.env)))
            && (run.Abrupt? && !run.out.Return? ==> r == Abrupt(run.out, run.st)))
  {
    var cls := Get(st.scopes, st.env, c).cls;
    var init := cls.methods["init"];
    var st1 := st.(store := st.store + [InstObj(cls, map[])]);
    assert EvalExpr(h, NewExpr(c, args), st, fuel) == EvalNew(h, c, args, st, fuel);
    var vs := EvalExprs(h, args, st1, fuel);
    if vs.Done? {
      var bindings := Bind(map["this" := InstRef(|st.store|)], init.params, vs.value);
      var inv := Invoke(h, init.body, bindings, vs.st, fuel);
      var run := RunBlock(h, init.body, vs.st.(scopes := vs.st.scopes + [Scope(bindings, Some(GlobalScope))], env := |vs.st.scopes|), fuel - 1);
      assert run.Done? ==> inv == Done(Nil, run.st.(env := vs.st.env));
      assert run.Abrupt? && run.out.Return? ==> inv == Done(run.out.value, run.st.(env := vs.st.env));
      assert run.Abrupt? && !run.out.Return? ==> inv == Abrupt(run.out, run.st);
    }
  }

  /** `x.n = e` on an instance yields the value of `e`, and `x.n` then
      reads it. */
  lemma FieldWrite(h: Host, o: Expr, n: string, e: Expr, st: State, fuel: nat)
    requires var ov := EvalExpr(h, o, st, fuel); ov.Done? && InstanceOf(ov.st.store, ov.value).Some?
    requires EvalExpr(h, e, EvalExpr(h, o, st, fuel).st, fuel).Done?
    ensures var ov := EvalExpr(h, o, st, fuel);
      var ev := EvalExpr(h, e, ov.st, fuel);
      var r := EvalExpr(h, SetExpr(o, n, e), st, fuel);
      r.Done? && r.value == ev.value && FieldOf(r.st.store, ov.value, n) == ev.value
  {
    var ov := EvalExpr(h, o, st, fuel);
    var ev := EvalExpr(h, e, ov.st, fuel);
    assert SameKind(ov.st.store[ov.value.inst], ev.st.store[ov.value.inst]);
    SetFieldRead(ev.st.store, ov.value.inst, n, ev.value, n);
  }

  /** `set n = e` defines `n` in the current scope: `n` then reads the
      value of `e`, and every other name reads as it did after `e`. */
  lemma SetDefines(h: Host, n: string, e: Expr, m: string, st: State, fuel: nat)
    requires st.env < |st.scopes| && EvalExpr(h, e, st, fuel).Done?
    ensures var ev := EvalExpr(h, e, st, fuel);
      var r := RunStmt(h, SetStmt(n, e), st, fuel);
      && r.Done? && r.st.env == st.env && r.st.store == ev.st.store
      && Get(r.st.scopes, r.st.env, m) == (if m == n then ev.value else Get(ev.st.scopes, ev.st.env, m))
  {
    var ev := EvalExpr(h, e, st, fuel);
    DefineGet(ev.st.scopes, ev.st.env, n, ev.value, m);
  }

  /** `l[i]` on a list and an int index in range, counted from the end
      when negative, reads that element, after the list and then the
      index are evaluated. */
  lemma IndexReads(h: Host, l: Expr, i: Expr, st: State, fuel: nat)
    requires var lv := EvalExpr(h, l, st, fuel); lv.Done? && EvalExpr(h, i, lv.st, fuel).Done?
    requires var lv := EvalExpr(h, l, st, fuel); var iv := EvalExpr(h, i, lv.st, fuel);
      && ListOf(iv.st.store, lv.value).Some? && iv.value.Int?
      && -|ListOf(iv.st.store, lv.value).value| <= iv.value.i < |ListOf(iv.st.store, lv.value).value|
    ensures var lv := EvalExpr(h, l, st, fuel); var iv := EvalExpr(h, i, lv.st, fuel);
      var items := ListOf(iv.st.store, lv.value).value;
      EvalExpr(h, IndexExpr(l, i), st, fuel) ==
        Done(items[if iv.value.i < 0 then iv.value.i + |items| else iv.value.i], iv.st)
  {
    var lv := EvalExpr(h, l, st, fuel);
    var iv := EvalExpr(h, i, lv.st, fuel);
    if iv.value.i < 0 {
      IndexFromEnd(iv.st.store, lv.value, iv.value.i);
    }
  }

  /** `l[i] = x` on a list and an int index in range writes the element:
      afterwards `l[i]` reads the value of `x`, and the list keeps its
      length. */
  lemma SetIndexWrites(h: Host, l: Expr, i: Expr, x: Expr, st: State, fuel: nat)
    requires var lv := EvalExpr(h, l, st, fuel); lv.Done? && EvalExpr(h, i, lv.st, fuel).Done?
    requires var iv := EvalExpr(h, i, EvalExpr(h, l, st, fuel).st, fuel); EvalExpr(h, x, iv.st, fuel).Done?
    requires var lv := EvalExpr(h, l, st, fuel); var iv := EvalExpr(h, i, lv.st, fuel);
      var xv := EvalExpr(h, x, iv.st, fuel);
      && ListOf(xv.st.store, lv.value).Some? && iv.value.Int?
      && -|ListOf(xv.st.store, lv.value).value| <= iv.value.i < |ListOf(xv.st.store, lv.value).value|
    ensures var lv := EvalExpr(h, l, st, fuel); var iv := EvalExpr(h, i, lv.st, fuel);
      var xv := EvalExpr(h, x, iv.st, fuel);
      var r := RunStmt(h, SetIndexStmt(l, i, x), st, fuel);
      && r.Done? && r.st.scopes == xv.st.scopes && r.st.env == xv.st.env
      && ListOf(r.st.store, lv.value).Some?
      && |ListOf(r.st.store, lv.value).value| == |ListOf(xv.st.store, lv.value).value|
      && IndexValue(r.st.store, lv.value, iv.value) == xv.value
  {
    var lv := EvalExpr(h, l, st, fuel);
    var iv := EvalExpr(h, i, lv.st, fuel);
    var xv := EvalExpr(h, x, iv.st, fuel);
    SetIndexRead(xv.st.store, lv.value, iv.value.i, xv.value, iv.value, lv.value);
  }

  /** A method call on a value that is not an instance, or naming a method
      its class lacks, is nil and evaluates no argument. */
  lemma MethodMisses(h: Host, o: Expr, m: string, args: seq<Expr>, st: State, fuel: nat)
    requires var ov := EvalExpr(h, o, st, fuel);
      ov.Done? && (InstanceOf(ov.st.store, ov.value).None? || m !in InstanceOf(ov.st.store, ov.value).value.cls.methods)
    ensures EvalExpr(h, MethodCallExpr(o, m, args), st, fuel) == Done(Nil, EvalExpr(h, o, st, fuel).st)
  {
    var ov := EvalExpr(h, o, st, fuel);
    assert EvalMethod(h, ov.value, m, args, ov.st, fuel) == Done(Nil, ov.st);
    assert EvalMethodCall(h, o, m, args, st, fuel) == EvalMethod(h, ov.value, m, args, ov.st, fuel);
  }

  // ---------------------------------------------------------------------
  // import
  // ---------------------------------------------------------------------

  /** Importing a file that does not exist changes nothing. */
  lemma ImportMissing(h: Host, path: string, st: State, fuel: nat)
    requires path !in h.files
    ensures RunStmt(h, ImportStmt(path), st, fuel) == Done((), st)
  {
  }

  /** An imported file whose text does not lex or parse stops the
      interpreter with the front end's message; `try` cannot catch it. */
  lemma ImportBadFile(h: Host, path: string, t: seq<Stmt>, v: string, st: State, fuel: nat)
    requires path in h.files && h.parse(h.files[path]).Err?
    ensures RunStmt(h, ImportStmt(path), st, fuel) == Abrupt(Crash(h.parse(h.files[path]).msg), st)
    ensures RunStmt(h, TryStmt([ImportStmt(path)], t, v), st, fuel) == Abrupt(Crash(h.parse(h.files[path]).msg), st)
  {
    var crash := Abrupt(Crash(h.parse(h.files[path]).msg), st);
    assert RunStmt(h, ImportStmt(path), st, fuel) == crash;
    assert RunBlock(h, [ImportStmt(path)], st, fuel) == crash;
  }
}
