/** The native registry of `src/runtime.cpp`: the names it registers, and
    the collection natives `len`, `range`, `list.add` and `list.pop`. Every
    other native does I/O, floating point, randomness or string work
    outside the evaluator, and is a parameter of the evaluator. */
module Natives {

  import opened Results
  import opened Values
  import Ops
  import Text

  /** Every name `initNativeFunctions` registers. */
  const NativeNames: set<string> := {
    "print", "net.server", "net.accept", "net.connect", "net.send", "net.recv",
    "net.close", "int", "char", "float", "str", "term.getch", "term.color",
    "term.reset", "time.sleep", "os.exec", "os.cwd", "os.getenv", "os.unescape",
    "os.date", "io.read", "io.exists", "fs.list", "fs.isdir", "fs.mkdir", "len",
    "str.sub", "str.lower", "str.upper", "str.trim", "str.replace", "str.split",
    "str.contains", "str.pop", "str.starts_with", "str.substr", "str.merge",
    "math.random", "math.randint", "math.pi", "math.sin", "math.cos", "math.sqrt",
    "math.pow", "math.abs", "list.pop", "range", "term.clear", "term.move",
    "os.chdir", "os.setenv", "io.remove", "io.write", "io.append", "list.add",
    "gui_get_char", "gui_get_key", "gui_is_key_down", "gui_measure_text",
    "gui_setup", "gui_close", "gui_running", "gui_start", "gui_present",
    "gui_clear", "gui_text", "gui_rect", "gui_is_mouse_down", "gui.mouse_x",
    "gui.mouse_y", "gui_click", "gui_key", "gui_load_font", "gui_is_key_pressed",
    "gui.measure_height", "gui.get_mouse_wheel", "gui_load_image",
    "gui_draw_image", "gui.width", "gui.height", "gui_quit"
  }

  /** `len`: the length of a string, a list or a dict, converted to `int`;
      0 with no argument or any other argument. */
  function Len(args: seq<Value>, store: Store): (r: Value)
    ensures r.Int? && Ops.InInt(r.i)
    ensures |args| == 0 ==> r == Int(0)
    ensures |args| > 0 && ListOf(store, args[0]).Some? && |ListOf(store, args[0]).value| <= Text.IntMax ==>
      r == Int(|ListOf(store, args[0]).value|)
    ensures |args| > 0 && args[0].Str? && |args[0].s| <= Text.IntMax ==> r == Int(|args[0].s|)
    ensures |args| > 0 && DictOf(store, args[0]).Some? && |DictOf(store, args[0]).value| <= Text.IntMax ==>
      r == Int(|DictOf(store, args[0]).value|)
    ensures |args| > 0 && !args[0].Str? && ListOf(store, args[0]).None? && DictOf(store, args[0]).None? ==> r == Int(0)
  {
    if |args| == 0 then Int(0)
    else if args[0].Str? then Int(Ops.Wrap(|args[0].s|))
    else match ListOf(store, args[0])
      case Some(items) => Int(Ops.Wrap(|items|))
      case None =>
        match DictOf(store, args[0])
        case Some(es) => Int(Ops.Wrap(|es|))
        case None => Int(0)
  }

  /** The ints 0, 1, ..., n - 1, in order; none when n <= 0. */
  function Count(n: int): (r: seq<Value>)
    ensures |r| == if n > 0 then n else 0
    ensures forall i :: 0 <= i < |r| ==> r[i] == Int(i)
  {
    if n <= 0 then [] else Count(n - 1) + [Int(n - 1)]
  }

  /** `range(n)`: a new list of the ints below `n` (none for a missing or
      non-int limit). */
  function Range(args: seq<Value>, store: Store): (r: (Value, Store))
    ensures r.0 == ListRef(|store|)
    ensures r.1 == store + [ListObj(Count(if |args| > 0 && args[0].Int? then args[0].i else 0))]
  {
    var limit := if |args| > 0 && args[0].Int? then args[0].i else 0;
    var (s, l) := Alloc(store, ListObj(Count(limit)));
    (ListRef(l), s)
  }

  /** `list.add(l, x)`: appends `x` to the one list `l` refers to; returns
      0. Too few arguments, or a first argument that is not a list, change
      nothing. */
  function ListAdd(args: seq<Value>, store: Store): (r: (Value, Store))
    ensures r.0 == Int(0) && |r.1| == |store|
    ensures |args| >= 2 && ListOf(store, args[0]).Some? ==>
      r.1 == store[args[0].list := ListObj(ListOf(store, args[0]).value + [args[1]])]
    ensures !(|args| >= 2 && ListOf(store, args[0]).Some?) ==> r.1 == store
  {
    if |args| >= 2 then
      match ListOf(store, args[0])
      case Some(items) => (Int(0), store[args[0].list := ListObj(items + [args[1]])])
      case None => (Int(0), store)
    else (Int(0), store)
  }

  /** `list.pop(l)`: removes and returns the last element of the list `l`
      refers to; nil, with nothing changed, for an empty list, a non-list
      or no argument. */
  function ListPop(args: seq<Value>, store: Store): (r: (Value, Store))
    ensures |r.1| == |store|
    ensures var items := ListOf(store, if |args| > 0 then args[0] else Nil);
      if items.Some? && |items.value| > 0 then
        r == (items.value[|items.value| - 1], store[args[0].list := ListObj(items.value[..|items.value| - 1])])
      else r == (Nil, store)
  {
    if |args| == 0 then (Nil, store)
    else match ListOf(store, args[0])
      case Some(items) =>
        if |items| > 0 then (items[|items| - 1], store[args[0].list := ListObj(items[..|items| - 1])])
        else (Nil, store)
      case None => (Nil, store)
  }

  // ---------------------------------------------------------------------
  // How the natives fit together
  // ---------------------------------------------------------------------

  /** `len(range(n))` is `n` for every non-negative `int`. */
  lemma LenRange(n: int, store: Store)
    requires 0 <= n <= Text.IntMax
    ensures var (l, s) := Range([Int(n)], store); Len([l], s) == Int(n)
  {
  }

  /** `list.pop` undoes `list.add`: it returns the added element and leaves
      the store as it was. */
  lemma PopUndoesAdd(l: Value, x: Value, store: Store)
    requires ListOf(store, l).Some?
    ensures var (_, s) := ListAdd([l, x], store); ListPop([l], s) == (x, store)
  {
    var items := ListOf(store, l).value;
    var s := ListAdd([l, x], store).1;
    assert (items + [x])[..|items|] == items;
    assert s[l.list := ListObj(items)] == store;
  }
}
