/** The scopes of `include/env.h`. An `Environment` is an object with its
    own bindings and an `Environment*` naming its enclosing scope; the evaluator
    keeps the address of the current one and swaps it on calls and in a
    `catch`. So scopes live in a store and are named by handle, exactly as
    lists are: a write through one chain is seen by every chain that shares
    the scope. A scope is always created after its enclosing scope, so
    every chain of enclosing handles descends and ends. Freeing is not
    modelled: a scope stays in the store after its last owner is gone. */
module Env {

  import opened Results
  import opened Values

  /** An `Environment`: its bindings and the handle of its enclosing scope
      (`None` for the global scope). */
  datatype Scope = Scope(values: map<string, Value>, enclosing: Option<nat>)

  type Scopes = seq<Scope>

  /** The enclosing scope of `e`. A handle that is not older than `e` is
      read as none; the evaluator never builds one. */
  function Parent(ss: Scopes, e: nat): (r: Option<nat>)
    ensures r.Some? ==> r.value < e
  {
    if e < |ss| && ss[e].enclosing.Some? && ss[e].enclosing.value < e then ss[e].enclosing else None
  }

  /** A new scope at a fresh handle. */
  function Push(ss: Scopes, values: map<string, Value>, enclosing: Option<nat>): (r: (Scopes, nat))
    ensures r.1 == |ss| && r.0 == ss + [Scope(values, enclosing)]
  {
    (ss + [Scope(values, enclosing)], |ss|)
  }

  /** `define`: binds in scope `e` itself, overwriting a binding there. */
  function Define(ss: Scopes, e: nat, n: string, v: Value): (r: Scopes)
    ensures |r| == |ss|
    ensures forall k :: 0 <= k < |ss| && k != e ==> r[k] == ss[k]
    ensures e < |ss| ==> r[e] == Scope(ss[e].values[n := v], ss[e].enclosing)
  {
    if e < |ss| then ss[e := ss[e].(values := ss[e].values[n := v])] else ss
  }

  /** `get`: the value of the nearest binding, or nil when no scope of the
      chain binds the name. (The C++ function lacks its closing brace; this
      is the evident intent.) */
  function Get(ss: Scopes, e: nat, n: string): (r: Value)
    ensures r != Nil ==> exists k :: 0 <= k <= e && k < |ss| && n in ss[k].values && ss[k].values[n] == r
    decreases e
  {
    if e >= |ss| then Nil
    else if n in ss[e].values then ss[e].values[n]
    else match Parent(ss, e)
      case Some(p) => Get(ss, p, n)
      case None => Nil
  }

  /** `assign`: overwrites the nearest binding; with none, binds in the
      outermost scope of the chain. */
  function Assign(ss: Scopes, e: nat, n: string, v: Value): (r: Scopes)
    ensures |r| == |ss|
    ensures forall k :: 0 <= k < |ss| ==> r[k] == ss[k] || r[k] == ss[k].(values := ss[k].values[n := v])
    ensures forall k :: 0 <= k < |ss| && k > e ==> r[k] == ss[k]
    decreases e
  {
    if e >= |ss| then ss
    else if n in ss[e].values then ss[e := ss[e].(values := ss[e].values[n := v])]
    else match Parent(ss, e)
      case Some(p) => Assign(ss, p, n, v)
      case None => ss[e := ss[e].(values := ss[e].values[n := v])]
  }

  // ---------------------------------------------------------------------
  // The chain, and the bindings visible through it
  // ---------------------------------------------------------------------

  /** The handles of the chain from `e` outwards. */
  function Chain(ss: Scopes, e: nat): (c: seq<nat>)
    ensures forall i :: 0 <= i < |c| ==> c[i] <= e
    decreases e
  {
    if e >= |ss| then []
    else match Parent(ss, e)
      case Some(p) => [e] + Chain(ss, p)
      case None => [e]
  }

  /** The scope `assign` writes: the nearest one binding `n`, or the
      outermost one. */
  function Nearest(ss: Scopes, e: nat, n: string): (k: nat)
    ensures k <= e
    ensures e < |ss| ==> k in Chain(ss, e)
    ensures e < |ss| && k < |ss| && n !in ss[k].values ==> Parent(ss, k).None?
    decreases e
  {
    if e >= |ss| || n in ss[e].values then e
    else match Parent(ss, e)
      case Some(p) => Nearest(ss, p, n)
      case None => e
  }

  /** The bindings visible from scope `e`: each scope overrides the ones
      that enclose it. */
  function Visible(ss: Scopes, e: nat): map<string, Value>
    decreases e
  {
    if e >= |ss| then map[]
    else match Parent(ss, e)
      case Some(p) => Visible(ss, p) + ss[e].values
      case None => ss[e].values
  }

  /** `get` is a lookup in the visible bindings, nil when absent. */
  lemma {:induction false} GetVisible(ss: Scopes, e: nat, n: string)
    ensures Get(ss, e, n) == if n in Visible(ss, e) then Visible(ss, e)[n] else Nil
    decreases e
  {
    if e < |ss| && n !in ss[e].values && Parent(ss, e).Some? {
      GetVisible(ss, Parent(ss, e).value, n);
    }
  }

  /** A name no scope of the chain binds reads as nil. */
  lemma {:induction false} GetUnbound(ss: Scopes, e: nat, n: string)
    requires forall k :: k in Chain(ss, e) ==> k < |ss| && n !in ss[k].values
    ensures Get(ss, e, n) == Nil
    decreases e
  {
    if e < |ss| && Parent(ss, e).Some? {
      GetUnbound(ss, Parent(ss, e).value, n);
    }
  }

  /** A lookup from `e` reads only scopes `e` and older. */
  lemma {:induction false} GetOlder(ss: Scopes, ts: Scopes, e: nat, n: string)
    requires |ss| == |ts|
    requires forall k :: 0 <= k <= e && k < |ss| ==> ss[k] == ts[k]
    ensures Get(ss, e, n) == Get(ts, e, n)
    decreases e
  {
    if e < |ss| && n !in ss[e].values && Parent(ss, e).Some? {
      GetOlder(ss, ts, Parent(ss, e).value, n);
    }
  }

  /** After `define(n, v)` in scope `e`, `n` reads `v` from `e` and every
      other name reads as before. */
  lemma DefineGet(ss: Scopes, e: nat, n: string, v: Value, m: string)
    requires e < |ss|
    ensures Get(Define(ss, e, n, v), e, m) == if m == n then v else Get(ss, e, m)
  {
    var ts := Define(ss, e, n, v);
    if m != n && m !in ss[e].values && Parent(ss, e).Some? {
      GetOlder(ss, ts, Parent(ss, e).value, m);
    }
  }

  /** `assign` writes exactly the scope `Nearest` names. */
  lemma {:induction false} AssignWrites(ss: Scopes, e: nat, n: string, v: Value)
    requires e < |ss|
    ensures var k := Nearest(ss, e, n);
      k < |ss| && Assign(ss, e, n, v) == ss[k := ss[k].(values := ss[k].values[n := v])]
    decreases e
  {
    if n !in ss[e].values && Parent(ss, e).Some? {
      AssignWrites(ss, Parent(ss, e).value, n, v);
    }
  }

  /** After `assign(n, v)` from scope `e`, `n` reads `v` from `e` and every
      other name reads as before. */
  lemma {:induction false} AssignGet(ss: Scopes, e: nat, n: string, v: Value, m: string)
    requires e < |ss|
    ensures Get(Assign(ss, e, n, v), e, m) == if m == n then v else Get(ss, e, m)
    decreases e
  {
    var ts := Assign(ss, e, n, v);
    AssignWrites(ss, e, n, v);
    if n in ss[e].values {
      if m != n && m !in ss[e].values && Parent(ss, e).Some? {
        GetOlder(ss, ts, Parent(ss, e).value, m);
      }
    } else if Parent(ss, e).Some? {
      var p := Parent(ss, e).value;
      AssignGet(ss, p, n, v, m);
      assert ts == Assign(ss, p, n, v);
    }
  }

  /** `assign` of a name no scope of the chain binds creates it in the
      outermost scope of the chain. */
  lemma {:induction false} AssignUnbound(ss: Scopes, e: nat, n: string)
    requires e < |ss|
    requires forall k :: k in Chain(ss, e) ==> k < |ss| && n !in ss[k].values
    ensures Parent(ss, Nearest(ss, e, n)).None?
    decreases e
  {
    if Parent(ss, e).Some? {
      AssignUnbound(ss, Parent(ss, e).value, n);
    }
  }

  /** Adding scopes changes no lookup from an existing one. */
  lemma {:induction false} GetPrefix(ss: Scopes, ts: Scopes, e: nat, n: string)
    requires |ss| <= |ts| && ts[..|ss|] == ss
    requires e < |ss|
    ensures Get(ts, e, n) == Get(ss, e, n)
    decreases e
  {
    assert ts[e] == ss[e];
    if n !in ss[e].values && Parent(ss, e).Some? {
      GetPrefix(ss, ts, Parent(ss, e).value, n);
    }
  }

  /** A scope pushed with enclosing scope `p` (a callee's, with `p` the
      global scope; a catch body's, with `p` the scope at the fault) reads
      its own bindings first and then whatever `p` reads. */
  lemma PushGet(ss: Scopes, values: map<string, Value>, p: nat, n: string)
    requires p < |ss|
    ensures var (ts, e) := Push(ss, values, Some(p));
      Get(ts, e, n) == if n in values then values[n] else Get(ss, p, n)
  {
    var (ts, e) := Push(ss, values, Some(p));
    assert ts[..|ss|] == ss;
    if n !in values {
      assert Parent(ts, e) == Some(p);
      GetPrefix(ss, ts, p, n);
    }
  }
}
