/** The value-level operations of `src/runtime.cpp`: binary operators on
    evaluated operands, list and dict indexing, instance fields and method
    lookup. C++ `int` is 32-bit two's complement; the model keeps
    mathematical integers and writes the width out: bitwise operators work
    on the 32-bit pattern (the residue mod 2^32), bit by bit, and an
    operation whose result C++ leaves undefined
    (signed overflow, a shift by a negative or too large count) yields
    `None`. */
module Ops {

  import opened Results
  import opened Text
  import opened Ast
  import opened Values

  const TwoTo32: int := 0x1_0000_0000

  predicate InInt(i: int) { IntMin <= i <= IntMax }

  // ---------------------------------------------------------------------
  // 32-bit two's complement
  // ---------------------------------------------------------------------

  /** Converting a wider integer to `int` keeps its low 32 bits, read as
      two's complement. */
  function Wrap(i: int): (r: int)
    ensures InInt(r)
    ensures (r - i) % TwoTo32 == 0
    ensures InInt(i) ==> r == i
  {
    var u := i % TwoTo32;
    if u <= IntMax then u else u - TwoTo32
  }

  function Pow2(n: nat): (r: nat)
    ensures r >= 1
  {
    if n == 0 then 1 else 2 * Pow2(n - 1)
  }

  /** The 32-bit two's-complement pattern of an integer, as the unsigned
      number it spells. */
  function Pattern(i: int): (u: nat)
    ensures u < TwoTo32
  {
    i % TwoTo32
  }

  /** `&`, `|` or `^` of two single bits. */
  function BitFn(op: char, x: nat, y: nat): nat {
    if op == '&' then (if x == 1 && y == 1 then 1 else 0)
    else if op == '|' then (if x == 1 || y == 1 then 1 else 0)
    else if x != y then 1 else 0
  }

  /** `&`, `|` or `^` applied to the low `n` bits of two naturals, one bit
      at a time from the lowest. */
  function Combine(op: char, a: nat, b: nat, n: nat): (c: nat)
    ensures c < Pow2(n)
  {
    if n == 0 then 0 else 2 * Combine(op, a / 2, b / 2, n - 1) + BitFn(op, a % 2, b % 2)
  }

  /** A result C++ can hold; `None` is a signed overflow. */
  function Checked(i: int): (r: Option<Value>)
    ensures r.Some? <==> InInt(i)
    ensures r.Some? ==> r.value == Int(i)
  {
    if InInt(i) then Some(Int(i)) else None
  }

  /** C++ `/` on ints: the quotient rounded toward zero. */
  function Quot(l: int, r: int): int
    requires r != 0
  {
    var q := Abs(l) / Abs(r);
    if (l < 0) == (r < 0) then q else -q
  }

  function Abs(i: int): nat { if i < 0 then -i else i }

  // ---------------------------------------------------------------------
  // Binary operators (the BinaryExpr branch of evaluateExpr)
  // ---------------------------------------------------------------------

  /** The operators of the int-and-int bitwise switch. `L` and `R` are the
      parser's names for `<<` and `>>`. */
  predicate IsBitOp(op: char) {
    op == '&' || op == '|' || op == '^' || op == 'L' || op == 'R'
  }

  /** Bitwise operators on two ints, on their 32-bit patterns. `>>` of a
      negative int is the arithmetic shift (it rounds toward minus
      infinity) and `<<` keeps the low 32 bits, the C++20 rules. */
  function BitOp(op: char, l: int, r: int): (res: Option<int>)
    requires IsBitOp(op)
    ensures res.None? <==> (op == 'L' || op == 'R') && !(0 <= r < 32)
    ensures res.Some? ==> InInt(res.value)
  {
    if op == '&' || op == '|' || op == '^' then Some(Wrap(Combine(op, Pattern(l), Pattern(r), 32)))
    else if !(0 <= r < 32) then None
    else if op == 'L' then Some(Wrap(l * Pow2(r)))
    else Some(Wrap(l / Pow2(r)))
  }

  /** The arithmetic and comparison switch on two ints. Comparisons yield
      bools; `!` is the parser's name for `!=` and `=` for `==`; an
      operator outside the switch yields nil. */
  function IntOp(op: char, l: int, r: int): (res: Option<Value>)
    ensures res.None? ==> op == '+' || op == '-' || op == '*' || op == '/'
    ensures res.Some? && res.value.Int? ==> InInt(res.value.i)
    ensures op == '<' || op == '>' || op == '=' || op == '!' ==> res.Some? && res.value.Bool?
  {
    if op == '+' then Checked(l + r)
    else if op == '-' then Checked(l - r)
    else if op == '!' then Some(Bool(l != r))
    else if op == '*' then Checked(l * r)
    else if op == '/' then (if r == 0 then Some(Int(0)) else Checked(Quot(l, r)))
    else if op == '<' then Some(Bool(l < r))
    else if op == '>' then Some(Bool(l > r))
    else if op == '=' then Some(Bool(l == r))
    else Some(Nil)
  }

  /** The value of `l op r`, in the order the C++ tests the cases: the
      bitwise switch on two ints; `&` and `|` over truthiness; a string on
      the left of `+`; the int switch; string equality; nil for the rest.
      `None` is undefined behaviour. The double branch is not modelled. */
  function BinaryOp(op: char, l: Value, r: Value): (res: Option<Value>)
    ensures res.None? ==> l.Int? && r.Int?
    ensures res.Some? ==> res.value.Int? || res.value.Bool? || res.value.Str? || res.value.Nil?
    ensures res.Some? && res.value.Int? ==> l.Int? && r.Int? && InInt(res.value.i)
  {
    if l.Int? && r.Int? && IsBitOp(op) then
      var b :- BitOp(op, l.i, r.i);
      Some(Int(b))
    else if op == '&' then Some(Bool(IsTruthy(l) && IsTruthy(r)))
    else if op == '|' then Some(Bool(IsTruthy(l) || IsTruthy(r)))
    else if l.Str? && op == '+' then Some(Str(l.s + ObjToString(r)))
    else if l.Int? && r.Int? then IntOp(op, l.i, r.i)
    else if l.Str? && r.Str? && op == '=' then Some(Bool(l.s == r.s))
    else if l.Str? && r.Str? && op == '!' then Some(Bool(l.s != r.s))
    else Some(Nil)
  }

  // ---------------------------------------------------------------------
  // Indexing, fields and methods
  // ---------------------------------------------------------------------

  /** A negative index counts from the end of a list of length `n`. */
  function Normalize(i: int, n: nat): int {
    if i < 0 then i + n else i
  }

  /** `object[index]`: a list element by int index, a dict value by string
      key; nil when out of range, missing, or of any other types. */
  function IndexValue(store: Store, o: Value, i: Value): (r: Value)
  {
    match ListOf(store, o)
    case Some(items) =>
      if !i.Int? then Nil
      else
        var k := Normalize(i.i, |items|);
        if 0 <= k < |items| then items[k] else Nil
    case None =>
      (match DictOf(store, o)
       case Some(es) =>
         if !i.Str? then Nil
         else (match DictGet(es, i.s)
               case Some(v) => v
               case None => Nil)
       case None => Nil)
  }

  /** `list[index] = value`: writes the element of the one shared list;
      an index out of range, or a target that is not a list indexed by an
      int, changes nothing. */
  function SetIndex(store: Store, l: Value, i: Value, v: Value): (r: Store)
    ensures |r| == |store|
    ensures forall h :: 0 <= h < |store| && !(l.ListRef? && h == l.list) ==> r[h] == store[h]
  {
    match ListOf(store, l)
    case Some(items) =>
      if !i.Int? then store
      else
        var k := Normalize(i.i, |items|);
        if 0 <= k < |items| then store[l.list := ListObj(items[k := v])] else store
    case None => store
  }

  /** `instance.name`: the field's value, or nil when the instance has no
      such field or the value is not an instance. */
  function FieldOf(store: Store, o: Value, n: string): (r: Value)
    ensures InstanceOf(store, o).None? ==> r == Nil
  {
    match InstanceOf(store, o)
    case Some(inst) => if n in inst.fields then inst.fields[n] else Nil
    case None => Nil
  }

  /** `instance.name = value` on the instance at handle `h`; the class and
      every other field are kept. */
  function SetField(store: Store, h: Handle, n: string, v: Value): (r: Store)
    ensures |r| == |store|
    ensures forall k :: 0 <= k < |store| && k != h ==> r[k] == store[k]
    ensures h < |store| && store[h].InstObj? ==>
      r[h] == InstObj(store[h].cls, store[h].fields[n := v])
  {
    if h < |store| && store[h].InstObj? then
      store[h := InstObj(store[h].cls, store[h].fields[n := v])]
    else store
  }

  /** `findMethod`. */
  function FindMethod(c: Class, n: string): (r: Option<FuncDecl>)
    ensures r.Some? <==> n in c.methods
    ensures r.Some? ==> r.value == c.methods[n]
  {
    if n in c.methods then Some(c.methods[n]) else None
  }

  /** The method table a class declaration builds, one method at a time:
      a later method replaces an earlier one of the same name. */
  function MethodTable(ms: seq<FuncDecl>): (t: map<string, FuncDecl>)
    ensures forall n :: n in t <==> exists i :: 0 <= i < |ms| && ms[i].name == n
  {
    if |ms| == 0 then map[]
    else
      var last := ms[|ms| - 1];
      var t := MethodTable(ms[..|ms| - 1]);
      assert forall i :: 0 <= i < |ms| - 1 ==> ms[..|ms| - 1][i] == ms[i];
      t[last.name := last]
  }

  /** The parameters of a call bound one `define` at a time, the i-th
      parameter to the i-th argument while both remain. */
  function Bind(m: map<string, Value>, ps: seq<string>, vs: seq<Value>): (r: map<string, Value>)
    ensures forall n :: n in r <==> n in m || exists i :: 0 <= i < |ps| && i < |vs| && ps[i] == n
    decreases |ps|
  {
    if |ps| == 0 || |vs| == 0 then m
    else
      var r := Bind(m[ps[0] := vs[0]], ps[1..], vs[1..]);
      assert forall i :: 0 <= i < |ps| - 1 ==> ps[1..][i] == ps[i + 1];
      r
  }

  // ---------------------------------------------------------------------
  // What the operators mean
  // ---------------------------------------------------------------------

  /** `Quot` is the quotient C++ `/` computes: the remainder it leaves is
      smaller than the divisor and is zero or has the sign of the dividend. */
  lemma QuotTruncates(l: int, r: int)
    requires r != 0
    ensures var m := l - Quot(l, r) * r;
      Abs(m) < Abs(r) && (m == 0 || (m < 0) == (l < 0))
  {
    var q := Abs(l) / Abs(r);
    var m0 := Abs(l) % Abs(r);
    assert Abs(l) == q * Abs(r) + m0 && 0 <= m0 < Abs(r);
    QuotTimes(l, r);
  }

  /** The quotient times the divisor is the truncated multiple, with the
      dividend's sign. */
  lemma QuotTimes(l: int, r: int)
    requires r != 0
    ensures Quot(l, r) * r == (if l < 0 then -(Abs(l) / Abs(r) * Abs(r)) else Abs(l) / Abs(r) * Abs(r))
  {
  }

  /** The magnitude of a quotient is at most that of the dividend, and
      below it for a divisor other than 1 and -1. */
  lemma QuotSmaller(l: int, r: int)
    requires r != 0
    ensures Abs(Quot(l, r)) <= Abs(l)
    ensures Abs(r) > 1 && l != 0 ==> Abs(Quot(l, r)) < Abs(l)
  {
    DivBound(Abs(l), Abs(r));
  }

  lemma DivBound(a: nat, b: nat)
    requires b >= 1
    ensures a / b <= a
    ensures b > 1 && a > 0 ==> a / b < a
  {
    var q := a / b;
    assert q * b <= a;
    MulSplit(q, b);
    MulNonNeg(q, b - 1);
    if b > 1 && a > 0 {
      MulSplit(q, b - 1);
      MulNonNeg(q, b - 2);
    }
  }

  lemma MulSplit(x: int, y: int)
    ensures x * y == x + x * (y - 1)
  {
  }

  lemma MulNonNeg(x: nat, y: nat)
    ensures x * y >= 0
  {
  }

  lemma MulSub(d: int, x: int, y: int)
    ensures d * (x - y) == d * x - d * y
  {
  }

  /** A quotient and remainder that satisfy Euclid's equation are the
      ones `/` computes. */
  lemma DivUnique(a: int, d: int, q: int, m: int)
    requires d > 0 && a == d * q + m && 0 <= m < d
    ensures a / d == q
  {
    var q0 := a / d;
    assert a == d * q0 + a % d;
    MulSub(d, q0, q);
    if q0 > q {
      MulSplit(d, q0 - q);
      MulNonNeg(d, q0 - q - 1);
    } else if q0 < q {
      MulSub(d, q, q0);
      MulSplit(d, q - q0);
      MulNonNeg(d, q - q0 - 1);
    }
  }

  /** Division by zero yields 0, and integer division overflows only for
      the smallest int divided by -1. */
  lemma Division(l: int, r: int)
    requires InInt(l) && InInt(r)
    ensures BinaryOp('/', Int(l), Int(0)) == Some(Int(0))
    ensures BinaryOp('/', Int(l), Int(r)).None? <==> l == IntMin && r == -1
  {
    if r != 0 {
      QuotSmaller(l, r);
      if Abs(r) == 1 {
        assert Quot(l, r) == (if r == 1 then l else -l);
      }
    }
  }

  /** `+`, `-` and `*` on ints are the mathematical operations, defined
      exactly when the result fits in an int. */
  lemma Arithmetic(op: char, l: int, r: int)
    requires op == '+' || op == '-' || op == '*'
    ensures var exact := if op == '+' then l + r else if op == '-' then l - r else l * r;
      (BinaryOp(op, Int(l), Int(r)).Some? <==> InInt(exact))
      && (InInt(exact) ==> BinaryOp(op, Int(l), Int(r)) == Some(Int(exact)))
  {
  }

  /** Bit `k` of an int's two's-complement pattern: 0 or 1. */
  function Bit(i: int, k: nat): nat {
    Pattern(i) / Pow2(k) % 2
  }

  lemma Pow2Is32()
    ensures Pow2(32) == TwoTo32
  {
    assert Pow2(8) == 256;
    assert Pow2(16) == 256 * Pow2(8) by {
      assert Pow2(16) == 256 * Pow2(8);
    }
    assert Pow2(24) == 256 * Pow2(16) by {
      assert Pow2(24) == 256 * Pow2(16);
    }
    assert Pow2(32) == 256 * Pow2(24) by {
      assert Pow2(32) == 256 * Pow2(24);
    }
  }

  /** Dividing by `2 * c` is halving, then dividing by `c`. */
  lemma DivTwice(a: nat, c: nat)
    requires c >= 1
    ensures a / (2 * c) == a / 2 / c
  {
    var h := a / 2;
    var q := h / c;
    var m := 2 * (h % c) + a % 2;
    assert a == 2 * h + a % 2;
    assert h == c * q + h % c;
    assert a == (2 * c) * q + m;
    DivUnique(a, 2 * c, q, m);
  }

  /** Bit `k` of `Combine` is the operator applied to bit `k` of each
      operand. */
  lemma {:induction false} CombineBit(op: char, a: nat, b: nat, n: nat, k: nat)
    requires k < n
    ensures Combine(op, a, b, n) / Pow2(k) % 2 == BitFn(op, a / Pow2(k) % 2, b / Pow2(k) % 2)
    decreases k
  {
    var rest := Combine(op, a / 2, b / 2, n - 1);
    var low := BitFn(op, a % 2, b % 2);
    var x := 2 * rest + low;
    assert Combine(op, a, b, n) == x;
    if k == 0 {
      assert x % 2 == low;
    } else {
      var p := Pow2(k - 1);
      assert Pow2(k) == 2 * p;
      DivTwice(x, p);
      DivTwice(a, p);
      DivTwice(b, p);
      assert x / 2 == rest;
      CombineBit(op, a / 2, b / 2, n - 1, k - 1);
    }
  }

  /** A pattern read as an int and back is the same pattern. */
  lemma PatternOfWrap(c: nat)
    requires c < TwoTo32
    ensures Pattern(Wrap(c)) == c
  {
  }

  /** `&`, `|` and `^` on two ints are bitwise: every one of the 32 bits
      of the result is the `and`, `or` or `xor` of that bit of the two
      operands, and the result is an int. */
  lemma Bitwise(op: char, l: int, r: int, k: nat)
    requires op == '&' || op == '|' || op == '^'
    requires k < 32
    ensures BinaryOp(op, Int(l), Int(r)).Some? && BinaryOp(op, Int(l), Int(r)).value.Int?
    ensures var v := BinaryOp(op, Int(l), Int(r)).value.i;
      && InInt(v)
      && (op == '&' ==> (Bit(v, k) == 1 <==> Bit(l, k) == 1 && Bit(r, k) == 1))
      && (op == '|' ==> (Bit(v, k) == 1 <==> Bit(l, k) == 1 || Bit(r, k) == 1))
      && (op == '^' ==> (Bit(v, k) == 1 <==> Bit(l, k) != Bit(r, k)))
  {
    var c := Combine(op, Pattern(l), Pattern(r), 32);
    Pow2Is32();
    PatternOfWrap(c);
    CombineBit(op, Pattern(l), Pattern(r), 32, k);
    assert BinaryOp(op, Int(l), Int(r)) == Some(Int(Wrap(c)));
  }

  /** Unless both operands are ints, `&` and `|` combine truthiness. */
  lemma Logical(op: char, l: Value, r: Value)
    requires op == '&' || op == '|'
    requires !(l.Int? && r.Int?)
    ensures BinaryOp(op, l, r) == Some(Bool(if op == '&' then IsTruthy(l) && IsTruthy(r) else IsTruthy(l) || IsTruthy(r)))
  {
  }

  /** `<<` by a count in 0..31 is the int whose 32-bit pattern is that of
      `l * 2^r`: the bits shifted out are dropped. Any other count is
      undefined. */
  lemma ShiftLeft(l: int, r: int)
    ensures BinaryOp('L', Int(l), Int(r)).Some? <==> 0 <= r < 32
    ensures 0 <= r < 32 ==>
      var v := BinaryOp('L', Int(l), Int(r)).value;
      v.Int? && InInt(v.i) && Pattern(v.i) == Pattern(l * Pow2(r))
  {
    if 0 <= r < 32 {
      var x := l * Pow2(r);
      assert (Wrap(x) - x) % TwoTo32 == 0;
      WrapPattern(x);
    }
  }

  /** An int and its wrap-around have the same pattern. */
  lemma WrapPattern(x: int)
    ensures Pattern(Wrap(x)) == Pattern(x)
  {
  }

  /** `>>` of an int by a count in 0..31 is the arithmetic shift: the
      quotient by 2^r rounded toward minus infinity, so a negative int
      stays negative. Any other count is undefined. */
  lemma ShiftRight(l: int, r: int)
    requires InInt(l)
    ensures BinaryOp('R', Int(l), Int(r)).Some? <==> 0 <= r < 32
    ensures 0 <= r < 32 ==>
      var v := BinaryOp('R', Int(l), Int(r)).value;
      v.Int? && Pow2(r) * v.i <= l < Pow2(r) * v.i + Pow2(r)
  {
    if 0 <= r < 32 {
      FloorQuot(l, Pow2(r));
      assert BitOp('R', l, r) == Some(l / Pow2(r));
    }
  }

  /** The floor quotient of an int by a positive number is an int, and
      brackets the dividend between two multiples of the divisor. */
  lemma FloorQuot(l: int, p: int)
    requires InInt(l) && p >= 1
    ensures InInt(l / p) && p * (l / p) <= l < p * (l / p) + p
  {
    if l >= 0 {
      DivBound(l, p);
    } else {
      FloorBelow(l, p);
    }
    assert l == p * (l / p) + l % p;
  }

  /** The floor quotient of a negative number lies between it and 0. */
  lemma FloorBelow(l: int, p: int)
    requires l < 0 && p >= 1
    ensures l <= l / p < 0
  {
    var q := l / p;
    assert l == p * q + l % p;
    if q >= 0 {
      MulNonNeg(p, q);
    }
    if q < l {
      MulSub(p, l, q + 1);
      MulNonNeg(p, l - (q + 1));
      MulSplit(l, p);
      MulNonNeg(-l, p - 1);
    }
  }

  /** A string on the left of `+` is concatenated with the string
      conversion of the right operand, whatever its type. */
  lemma StringPlus(s: string, r: Value)
    ensures BinaryOp('+', Str(s), r) == Some(Str(s + ObjToString(r)))
    ensures BinaryOp('+', Str("n = "), Int(42)) == Some(Str("n = 42"))
    ensures BinaryOp('+', Str("x"), Bool(false)) == Some(Str("xfalse"))
    ensures BinaryOp('+', Str("x"), Nil) == Some(Str("x"))
  {
    assert Decimal(42) == "42" by {
      assert Digits(42) == Digits(4) + [DigitChar(2)];
    }
    assert "n = " + "42" == "n = 42";
    assert "x" + "false" == "xfalse";
    assert "x" + "" == "x";
  }

  /** Two strings compare with `==` and `!=` by content. */
  lemma StringEquality(a: string, b: string)
    ensures BinaryOp('=', Str(a), Str(b)) == Some(Bool(a == b))
    ensures BinaryOp('!', Str(a), Str(b)) == Some(Bool(a != b))
  {
  }

  /** Every combination no rule covers yields nil: a string compared with
      an int, an int added to a string, `-` on strings, any operator on
      lists. */
  lemma OtherwiseNil(op: char, l: Value, r: Value)
    requires !(l.Int? && r.Int?)
    requires op != '&' && op != '|'
    requires !(l.Str? && op == '+')
    requires !(l.Str? && r.Str? && (op == '=' || op == '!'))
    ensures BinaryOp(op, l, r) == Some(Nil)
  {
  }

  /** A negative index reads the element that many places from the end. */
  lemma IndexFromEnd(store: Store, o: Value, i: int)
    requires ListOf(store, o).Some?
    requires -|ListOf(store, o).value| <= i < 0
    ensures IndexValue(store, o, Int(i)) == IndexValue(store, o, Int(i + |ListOf(store, o).value|))
    ensures IndexValue(store, o, Int(i)) == ListOf(store, o).value[i + |ListOf(store, o).value|]
  {
  }

  /** Reads that find nothing are nil: a list index out of range either
      way, a key the dict lacks, an object that is neither. */
  lemma IndexMisses(store: Store, o: Value, i: Value)
    ensures (ListOf(store, o).Some? && i.Int? &&
             (i.i < -|ListOf(store, o).value| || i.i >= |ListOf(store, o).value|)) ==> IndexValue(store, o, i) == Nil
    ensures DictOf(store, o).Some? && i.Str? && DictGet(DictOf(store, o).value, i.s).None? ==>
      IndexValue(store, o, i) == Nil
    ensures ListOf(store, o).None? && DictOf(store, o).None? ==> IndexValue(store, o, i) == Nil
  {
  }

  /** After `l[i] = v` with `i` in range, the element at `i` reads `v`
      through every value that refers to the list, the other elements read
      as before, and so does every other object. */
  lemma SetIndexRead(store: Store, l: Value, i: int, v: Value, j: Value, o: Value)
    requires ListOf(store, l).Some?
    requires -|ListOf(store, l).value| <= i < |ListOf(store, l).value|
    ensures var s := SetIndex(store, l, Int(i), v);
      && ListOf(s, l).Some? && |ListOf(s, l).value| == |ListOf(store, l).value|
      && IndexValue(s, l, Int(i)) == v
      && (j.Int? && Normalize(j.i, |ListOf(store, l).value|) != Normalize(i, |ListOf(store, l).value|) ==>
            IndexValue(s, l, j) == IndexValue(store, l, j))
      && (!(o.ListRef? && o.list == l.list) ==> IndexValue(s, o, j) == IndexValue(store, o, j))
  {
  }

  /** `l[i] = v` with `i` out of range, or with a non-int index, changes
      nothing. */
  lemma SetIndexMisses(store: Store, l: Value, i: Value, v: Value)
    requires ListOf(store, l).Some?
    requires !i.Int? || i.i < -|ListOf(store, l).value| || i.i >= |ListOf(store, l).value|
    ensures SetIndex(store, l, i, v) == store
  {
  }

  /** After `x.n = v` on an instance, `x.n` reads `v` and the other fields
      read as before. */
  lemma SetFieldRead(store: Store, h: Handle, n: string, v: Value, m: string)
    requires h < |store| && store[h].InstObj?
    ensures FieldOf(SetField(store, h, n, v), InstRef(h), m) == if m == n then v else FieldOf(store, InstRef(h), m)
  {
  }

  /** A class built from declarations finds exactly the declared methods,
      and a name declared more than once finds its last declaration. */
  lemma {:induction false} MethodTableLast(ms: seq<FuncDecl>, i: nat)
    requires i < |ms|
    requires forall j :: i < j < |ms| ==> ms[j].name != ms[i].name
    ensures ms[i].name in MethodTable(ms) && MethodTable(ms)[ms[i].name] == ms[i]
    decreases |ms|
  {
    if i < |ms| - 1 {
      var init := ms[..|ms| - 1];
      assert forall j :: i < j < |init| ==> init[j] == ms[j];
      MethodTableLast(init, i);
    }
  }

  lemma FindDeclared(n: string, ms: seq<FuncDecl>, m: string)
    ensures FindMethod(Class(n, MethodTable(ms)), m).Some? <==> exists i :: 0 <= i < |ms| && ms[i].name == m
  {
  }

  /** With distinct parameters, each is bound to its own argument, and a
      binding made beforehand (`this`) survives unless a parameter has its
      name. */
  lemma {:induction false} BindBinds(m: map<string, Value>, ps: seq<string>, vs: seq<Value>)
    requires |ps| == |vs|
    requires forall i, j :: 0 <= i < j < |ps| ==> ps[i] != ps[j]
    ensures forall i :: 0 <= i < |ps| ==> ps[i] in Bind(m, ps, vs) && Bind(m, ps, vs)[ps[i]] == vs[i]
    ensures forall n :: n in m && n !in ps ==> Bind(m, ps, vs)[n] == m[n]
    decreases |ps|
  {
    if |ps| > 0 {
      var m' := m[ps[0] := vs[0]];
      var ps', vs' := ps[1..], vs[1..];
      assert forall i, j :: 0 <= i < j < |ps'| ==> ps'[i] != ps'[j] by {
        forall i, j | 0 <= i < j < |ps'| ensures ps'[i] != ps'[j] {
          assert ps'[i] == ps[i + 1] && ps'[j] == ps[j + 1];
        }
      }
      BindBinds(m', ps', vs');
      forall i | 0 <= i < |ps|
        ensures ps[i] in Bind(m, ps, vs) && Bind(m, ps, vs)[ps[i]] == vs[i]
      {
        if i == 0 {
          assert ps[0] !in ps';
        } else {
          assert ps[i] == ps'[i - 1] && vs[i] == vs'[i - 1];
        }
      }
      forall n | n in m && n !in ps
        ensures Bind(m, ps, vs)[n] == m[n]
      {
        assert n !in ps';
      }
    }
  }
}
