/** Runtime values (`include/types.h`). Lists, dicts and instances are
    shared through `std::shared_ptr` in the C++; here they are handles into
    an explicit store, so that a mutation through one alias is visible
    through every other. Doubles are not modelled. */
module Values {

  import opened Results
  import opened Text
  import opened Ast
  import LinkStr
  import OsStr

  /** An index into the store. */
  type Handle = nat

  /** `LinkClass`: a name and its methods by name. */
  datatype Class = Class(name: string, methods: map<string, FuncDecl>)

  /** `Value`: the variant's alternatives other than `double`. `Nil` is the
      `std::monostate` a default-constructed value holds. */
  datatype Value =
    | Nil
    | Int(i: int)
    | Str(s: string)
    | Chr(c: char)
    | Bool(b: bool)
    | ListRef(list: Handle)
    | DictRef(dict: Handle)
    | ClassVal(cls: Class)
    | InstRef(inst: Handle)

  /** A dict entry. A dict is kept as its entries in insertion order with
      distinct keys; `std::unordered_map` promises no order, so no property
      here depends on it. */
  datatype Entry = Entry(key: string, value: Value)

  /** What a handle refers to: a list, a dict or an instance (`LinkInstance`,
      its class and its fields). */
  datatype Object =
    | ListObj(items: seq<Value>)
    | DictObj(entries: seq<Entry>)
    | InstObj(cls: Class, fields: map<string, Value>)

  type Store = seq<Object>

  // ---------------------------------------------------------------------
  // Store access
  // ---------------------------------------------------------------------

  /** The items of the list `v` refers to, if it is a list. */
  function ListOf(store: Store, v: Value): (r: Option<seq<Value>>)
    ensures r.Some? <==> v.ListRef? && v.list < |store| && store[v.list].ListObj?
  {
    if v.ListRef? && v.list < |store| && store[v.list].ListObj? then Some(store[v.list].items) else None
  }

  function DictOf(store: Store, v: Value): (r: Option<seq<Entry>>)
    ensures r.Some? <==> v.DictRef? && v.dict < |store| && store[v.dict].DictObj?
  {
    if v.DictRef? && v.dict < |store| && store[v.dict].DictObj? then Some(store[v.dict].entries) else None
  }

  /** The instance `v` refers to, if it is one. */
  function InstanceOf(store: Store, v: Value): (r: Option<Object>)
    ensures r.Some? <==> v.InstRef? && v.inst < |store| && store[v.inst].InstObj?
    ensures r.Some? ==> r.value.InstObj? && r.value == store[v.inst]
  {
    if v.InstRef? && v.inst < |store| && store[v.inst].InstObj? then Some(store[v.inst]) else None
  }

  /** `std::make_shared`: a new object at a fresh handle; every existing
      object is kept. */
  function Alloc(store: Store, o: Object): (r: (Store, Handle))
    ensures r.1 == |store| && r.0 == store + [o]
    ensures |r.0| == |store| + 1 && r.0[r.1] == o && r.0[..|store|] == store
  {
    (store + [o], |store|)
  }

  // ---------------------------------------------------------------------
  // Dicts (the `count` and `operator[]` of std::unordered_map)
  // ---------------------------------------------------------------------

  predicate DistinctKeys(es: seq<Entry>) {
    forall i, j :: 0 <= i < j < |es| ==> es[i].key != es[j].key
  }

  /** `dict.count(k) ? dict[k] : none`. */
  function DictGet(es: seq<Entry>, k: string): (r: Option<Value>)
    ensures r.Some? <==> exists i :: 0 <= i < |es| && es[i].key == k
    ensures r.Some? ==> exists i :: 0 <= i < |es| && es[i] == Entry(k, r.value)
  {
    if |es| == 0 then None
    else if es[0].key == k then Some(es[0].value)
    else
      var r := DictGet(es[1..], k);
      assert forall i :: 0 <= i < |es| - 1 ==> es[1..][i] == es[i + 1];
      r
  }

  /** `dict[k] = v`: overwrites the entry for `k`, or adds one. */
  function DictPut(es: seq<Entry>, k: string, v: Value): (r: seq<Entry>)
    ensures |r| == |es| + (if DictGet(es, k).Some? then 0 else 1)
  {
    if |es| == 0 then [Entry(k, v)]
    else if es[0].key == k then [Entry(k, v)] + es[1..]
    else [es[0]] + DictPut(es[1..], k, v)
  }

  lemma {:induction false} DictPutGet(es: seq<Entry>, k: string, v: Value, k2: string)
    ensures DictGet(DictPut(es, k, v), k2) == if k2 == k then Some(v) else DictGet(es, k2)
    decreases |es|
  {
    if |es| > 0 && es[0].key != k {
      DictPutGet(es[1..], k, v, k2);
    }
  }

  // ---------------------------------------------------------------------
  // Truthiness and string conversion (src/runtime.cpp)
  // ---------------------------------------------------------------------

  /** `isTruthy`: a bool is itself, an int is non-zero, a string is
      non-empty, nil is false and every other value is true. */
  predicate IsTruthy(v: Value): (b: bool)
    ensures !b <==> v == Nil || v == Bool(false) || v == Int(0) || v == Str("")
  {
    match v
    case Bool(b) => b
    case Int(i) => i != 0
    case Str(s) => s != ""
    case Nil => false
    case _ => true
  }

  /** `objToString`: an int in decimal, a string as it is, a bool as a word;
      every other value is the empty string. */
  function ObjToString(v: Value): (r: string)
    ensures v.Int? ==> |r| > 0 && (r[0] == '-' <==> v.i < 0)
    ensures v.Str? ==> r == v.s
    ensures v.Bool? ==> (r == "true" <==> v.b) && (r == "false" <==> !v.b)
    ensures !(v.Int? || v.Str? || v.Bool?) ==> r == ""
  {
    match v
    case Int(i) => Decimal(i)
    case Str(s) => s
    case Bool(b) => if b then "true" else "false"
    case _ => ""
  }

  /** `std::stoi` reads the string conversion of a 32-bit int back. */
  lemma ObjToStringInt(n: int)
    requires IntMin <= n <= IntMax
    ensures StoI(ObjToString(Int(n))) == Some(n)
  {
    StoIDecimal(n);
  }

  // ---------------------------------------------------------------------
  // printObj (include/types.h)
  // ---------------------------------------------------------------------

  /** The text `printObj` writes. The C++ recursion through nested lists and
      dicts is unbounded, and overflows the stack on a structure that
      contains itself; `depth` bounds the nesting, and `None` is a structure
      deeper than `depth` or a handle the store does not hold. */
  function ValueText(v: Value, store: Store, depth: nat): (r: Option<string>)
    ensures !(v.InstRef? || v.ListRef? || v.DictRef?) ==> r.Some?
    ensures v.ListRef? && r.Some? ==> |r.value| >= 2 && r.value[0] == '[' && r.value[|r.value| - 1] == ']'
    ensures v.DictRef? && r.Some? ==> |r.value| >= 2 && r.value[0] == '{' && r.value[|r.value| - 1] == '}'
    ensures (v.ListRef? || v.DictRef?) && depth == 0 ==> r.None?
    decreases depth, 0, 0
  {
    match v
    case Nil => Some("nil")
    case Int(i) => Some(Decimal(i))
    case Str(s) => Some(OsStr.Unescape(s))
    case Chr(c) => Some([c])
    case Bool(b) => Some(if b then "true" else "false")
    case ClassVal(k) => Some("<Class " + k.name + ">")
    case InstRef(_) =>
      var o :- InstanceOf(store, v);
      Some("<Instance " + o.cls.name + ">")
    case ListRef(_) =>
      var items :- ListOf(store, v);
      if depth == 0 then None
      else
        var parts :- ItemsText(items, store, depth - 1);
        Some("[" + LinkStr.Merge(parts, ", ") + "]")
    case DictRef(_) =>
      var entries :- DictOf(store, v);
      if depth == 0 then None
      else
        var parts :- EntriesText(entries, store, depth - 1);
        Some("{" + LinkStr.Merge(parts, ", ") + "}")
  }

  /** The texts of list elements, one per element. */
  function ItemsText(vs: seq<Value>, store: Store, depth: nat): (r: Option<seq<string>>)
    ensures r.Some? ==> |r.value| == |vs|
    ensures r.Some? ==> forall i :: 0 <= i < |vs| ==> ValueText(vs[i], store, depth) == Some(r.value[i])
    decreases depth, |vs|, 1
  {
    if |vs| == 0 then Some([])
    else
      var first :- ValueText(vs[0], store, depth);
      var rest :- ItemsText(vs[1..], store, depth);
      Some([first] + rest)
  }

  /** The texts of dict entries, each `"key": value`. */
  function EntriesText(es: seq<Entry>, store: Store, depth: nat): (r: Option<seq<string>>)
    ensures r.Some? ==> |r.value| == |es|
    ensures r.Some? ==> forall i :: 0 <= i < |es| ==>
      ValueText(es[i].value, store, depth).Some? &&
      r.value[i] == "\"" + es[i].key + "\": " + ValueText(es[i].value, store, depth).value
    decreases depth, |es|, 1
  {
    if |es| == 0 then Some([])
    else
      var value :- ValueText(es[0].value, store, depth);
      var rest :- EntriesText(es[1..], store, depth);
      Some(["\"" + es[0].key + "\": " + value] + rest)
  }

  /** A list of n rendered elements has n - 1 separators: its text is the
      brackets, the element texts, and two characters per separator. */
  lemma ListTextLength(h: Handle, store: Store, depth: nat)
    requires h < |store| && store[h].ListObj? && |store[h].items| > 0
    requires ValueText(ListRef(h), store, depth).Some?
    ensures var parts := ItemsText(store[h].items, store, depth - 1).value;
            |ValueText(ListRef(h), store, depth).value|
            == 2 + LinkStr.TotalLength(parts) + 2 * (|store[h].items| - 1)
  {
    LinkStr.MergeLength(ItemsText(store[h].items, store, depth - 1).value, ", ");
  }

  /** Printing a scalar writes its string conversion, except that printing
      decodes the escapes of a string: the two agree on every int, every
      bool and every string without a backslash. */
  lemma PrintAgreesWithString(v: Value, store: Store, depth: nat)
    requires v.Int? || v.Bool? || v.Str?
    requires v.Str? ==> forall i :: 0 <= i < |v.s| ==> v.s[i] != '\\'
    ensures ValueText(v, store, depth) == Some(ObjToString(v))
  {
    if v.Str? {
      OsStr.UnescapeNoBackslash(v.s);
    }
  }
}
