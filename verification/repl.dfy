/** The line editor of the interactive prompt (class ReplEditor, POSIX
    branch): the history list and the key handling of `readLine`. Terminal
    echo is not modelled; the state is the edit buffer, the cursor inside
    it and the position in the history. Input is the sequence of codes
    `getchar` returns. */
module Repl {
  import opened Results

  const Esc: int := 27
  const Enter: int := 10
  const Backspace: int := 127

  // ---------------------------------------------------------------------
  // History
  // ---------------------------------------------------------------------

  /** Every entry is non-empty and no entry repeats the one before it. */
  predicate GoodHistory(h: seq<string>) {
    (forall i :: 0 <= i < |h| ==> h[i] != "")
    && (forall i :: 0 < i < |h| ==> h[i] != h[i - 1])
  }

  /** `addToHistory`: empty lines and a repeat of the last entry are
      ignored; anything else is appended. */
  function AddToHistory(h: seq<string>, line: string): (r: seq<string>)
    ensures line == "" || (|h| > 0 && h[|h| - 1] == line) ==> r == h
    ensures line != "" && (|h| == 0 || h[|h| - 1] != line) ==> r == h + [line]
    ensures GoodHistory(h) ==> GoodHistory(r)
  {
    if line == "" then h
    else if |h| > 0 && h[|h| - 1] == line then h
    else h + [line]
  }

  /** Adding the same line twice in a row is the same as adding it once. */
  lemma AddToHistoryIdempotent(h: seq<string>, line: string)
    ensures AddToHistory(AddToHistory(h, line), line) == AddToHistory(h, line)
  {
  }

  // ---------------------------------------------------------------------
  // The editor state and its key transitions
  // ---------------------------------------------------------------------

  datatype Editor = Editor(buffer: string, cursor: int, idx: int)

  predicate Valid(e: Editor, h: seq<string>) {
    0 <= e.cursor <= |e.buffer| && 0 <= e.idx <= |h|
  }

  /** The state at the start of `readLine`: empty buffer, cursor 0, history
      position one past the last entry. */
  function Fresh(h: seq<string>): (e: Editor)
    ensures Valid(e, h) && e.buffer == "" && e.idx == |h|
  {
    Editor("", 0, |h|)
  }

  /** The buffer shown for a history position: the entry, or "" one past
      the end. */
  function Recall(h: seq<string>, e: Editor): (r: Editor)
    requires 0 <= e.idx <= |h|
    ensures Valid(r, h) && r.idx == e.idx && r.cursor == |r.buffer|
    ensures e.idx < |h| ==> r.buffer == h[e.idx]
    ensures e.idx == |h| ==> r.buffer == ""
  {
    var b := if e.idx < |h| then h[e.idx] else "";
    Editor(b, |b|, e.idx)
  }

  /** ESC [ A: one entry back, unless already at the first one (then the
      key does nothing at all). */
  function HistoryUp(h: seq<string>, e: Editor): (r: Editor)
    requires Valid(e, h)
    ensures Valid(r, h)
    ensures e.idx > 0 ==> r.idx == e.idx - 1 && r.buffer == h[e.idx - 1] && r.cursor == |r.buffer|
    ensures e.idx == 0 ==> r == e
  {
    if e.idx > 0 then Recall(h, e.(idx := e.idx - 1)) else e
  }

  /** ESC [ B: one entry forward, or to the empty line past the end. */
  function HistoryDown(h: seq<string>, e: Editor): (r: Editor)
    requires Valid(e, h)
    ensures Valid(r, h)
    ensures e.idx < |h| - 1 ==> r.idx == e.idx + 1 && r.buffer == h[e.idx + 1]
    ensures e.idx >= |h| - 1 ==> r.idx == |h| && r.buffer == ""
    ensures r.cursor == |r.buffer|
  {
    if e.idx < |h| - 1 then Recall(h, e.(idx := e.idx + 1))
    else Recall(h, e.(idx := |h|))
  }

  /** ESC [ D: cursor one left, if possible. */
  function CursorLeft(e: Editor): (r: Editor)
    ensures r.buffer == e.buffer && r.idx == e.idx
    ensures e.cursor > 0 ==> r.cursor == e.cursor - 1
    ensures e.cursor <= 0 ==> r.cursor == e.cursor
  {
    if e.cursor > 0 then e.(cursor := e.cursor - 1) else e
  }

  /** ESC [ C: cursor one right, if possible. */
  function CursorRight(e: Editor): (r: Editor)
    ensures r.buffer == e.buffer && r.idx == e.idx
    ensures e.cursor < |e.buffer| ==> r.cursor == e.cursor + 1
    ensures e.cursor >= |e.buffer| ==> r.cursor == e.cursor
  {
    if e.cursor < |e.buffer| then e.(cursor := e.cursor + 1) else e
  }

  /** Backspace (127): the character before the cursor is erased. */
  function Erase(e: Editor): (r: Editor)
    requires 0 <= e.cursor <= |e.buffer|
    ensures 0 <= r.cursor <= |r.buffer| && r.idx == e.idx
    ensures e.cursor > 0 ==> r.cursor == e.cursor - 1 && |r.buffer| == |e.buffer| - 1
    ensures e.cursor > 0 ==> r.buffer[..r.cursor] == e.buffer[..e.cursor - 1] && r.buffer[r.cursor..] == e.buffer[e.cursor..]
    ensures e.cursor == 0 ==> r == e
  {
    if e.cursor > 0 then
      Editor(e.buffer[..e.cursor - 1] + e.buffer[e.cursor..], e.cursor - 1, e.idx)
    else e
  }

  /** A printable character (32..126) is inserted at the cursor, which
      moves past it. */
  function Insert(e: Editor, c: char): (r: Editor)
    requires 0 <= e.cursor <= |e.buffer|
    ensures 0 <= r.cursor <= |r.buffer| && r.idx == e.idx
    ensures r.cursor == e.cursor + 1 && |r.buffer| == |e.buffer| + 1 && r.buffer[e.cursor] == c
    ensures r.buffer[..e.cursor] == e.buffer[..e.cursor] && r.buffer[r.cursor..] == e.buffer[e.cursor..]
  {
    Editor(e.buffer[..e.cursor] + [c] + e.buffer[e.cursor..], e.cursor + 1, e.idx)
  }

  /** Backspace right after typing a character undoes it. */
  lemma EraseUndoesInsert(e: Editor, c: char)
    requires 0 <= e.cursor <= |e.buffer|
    ensures Erase(Insert(e, c)) == e
  {
    var r := Erase(Insert(e, c));
    assert r.buffer == e.buffer[..e.cursor] + e.buffer[e.cursor..];
    assert e.buffer[..e.cursor] + e.buffer[e.cursor..] == e.buffer;
  }

  /** Walking up from the fresh line and back down returns to the empty
      line. */
  lemma UpThenDown(h: seq<string>)
    requires |h| > 0
    ensures HistoryUp(h, Fresh(h)).buffer == h[|h| - 1]
    ensures HistoryDown(h, HistoryUp(h, Fresh(h))).buffer == ""
    ensures HistoryDown(h, HistoryUp(h, Fresh(h))).idx == |h|
  {
  }

  // ---------------------------------------------------------------------
  // readLine
  // ---------------------------------------------------------------------

  /** What one read step does: the editor after the step and how many
      input codes it consumed, or `Done(line)` for Enter. */
  datatype Step = Continue(e: Editor, used: nat) | Done(line: string, used: nat) | Starved

  /** One pass of the `while (true)` loop of `readLine`, reading from
      `input[i..]`. An escape sequence consumes ESC, the next code and (if
      that was '[') one more; Enter returns the buffer; backspace erases;
      printable codes insert; every other code is ignored. `Starved` is
      running out of input in the middle. */
  function StepKey(h: seq<string>, e: Editor, input: seq<int>, i: nat): (s: Step)
    requires Valid(e, h) && i < |input|
    ensures s.Continue? ==> Valid(s.e, h) && 1 <= s.used <= 3 && i + s.used <= |input|
    ensures s.Done? ==> s.line == e.buffer && s.used == 1
  {
    var c := input[i];
    if c == Esc then
      if i + 1 >= |input| then Starved
      else if input[i + 1] != '[' as int then Continue(e, 2)
      else if i + 2 >= |input| then Starved
      else
        var key := input[i + 2];
        if key == 'A' as int then Continue(HistoryUp(h, e), 3)
        else if key == 'B' as int then Continue(HistoryDown(h, e), 3)
        else if key == 'D' as int then Continue(CursorLeft(e), 3)
        else if key == 'C' as int then Continue(CursorRight(e), 3)
        else Continue(e, 3)
    else if c == Enter then Done(e.buffer, 1)
    else if c == Backspace then Continue(Erase(e), 1)
    else if 32 <= c <= 126 then Continue(Insert(e, c as char), 1)
    else Continue(e, 1)
  }

  /** The loop of `readLine` from editor state `e` at input position `i`:
      the returned line, or `None` if the input ends first (the C++ loop
      would then spin on EOF for ever). */
  function Edit(h: seq<string>, e: Editor, input: seq<int>, i: nat): (r: Option<string>)
    requires Valid(e, h) && i <= |input|
    decreases |input| - i
  {
    if i == |input| then None
    else match StepKey(h, e, input, i)
      case Done(line, _) => Some(line)
      case Starved => None
      case Continue(e', n) => Edit(h, e', input, i + n)
  }

  /** `readLine`: starts from the fresh state. */
  function ReadLine(h: seq<string>, input: seq<int>): (r: Option<string>)
    ensures |input| > 0 && input[0] == Enter ==> r == Some("")
  {
    Edit(h, Fresh(h), input, 0)
  }

  predicate Printable(c: char) { 32 <= c as int <= 126 }

  function Codes(s: string): (r: seq<int>)
    ensures |r| == |s| && forall k :: 0 <= k < |s| ==> r[k] == s[k] as int
  {
    seq(|s|, k requires 0 <= k < |s| => s[k] as int)
  }

  /** One printable code is one insertion. */
  lemma TypeOne(h: seq<string>, e: Editor, c: char, rest: seq<int>)
    requires Valid(e, h) && Printable(c)
    ensures Edit(h, e, [c as int] + rest, 0) == Edit(h, Insert(e, c), rest, 0)
  {
    var input := [c as int] + rest;
    assert StepKey(h, e, input, 0) == Continue(Insert(e, c), 1);
    EditShift(h, Insert(e, c), input, 1);
    assert input[1..] == rest;
  }

  lemma CodesCons(s: string, rest: seq<int>)
    requires |s| > 0
    ensures Codes(s) + rest == [s[0] as int] + (Codes(s[1..]) + rest)
  {
    assert Codes(s) == [s[0] as int] + Codes(s[1..]);
  }

  /** The editor after `s` has been appended with the cursor at the end. */
  function TypedAtEnd(e: Editor, s: string): (r: Editor)
    ensures |r.buffer| == |e.buffer| + |s| && r.buffer[..|e.buffer|] == e.buffer && r.buffer[|e.buffer|..] == s
    ensures r.cursor == |r.buffer| && r.idx == e.idx
  {
    Editor(e.buffer + s, |e.buffer| + |s|, e.idx)
  }

  /** Typing printable characters at the end of the buffer appends them. */
  lemma {:induction false} TypingAppends(h: seq<string>, e: Editor, typed: string, rest: seq<int>)
    requires Valid(e, h) && e.cursor == |e.buffer|
    requires forall k :: 0 <= k < |typed| ==> Printable(typed[k])
    ensures Edit(h, e, Codes(typed) + rest, 0) == Edit(h, TypedAtEnd(e, typed), rest, 0)
    decreases |typed|
  {
    if |typed| == 0 {
      assert Codes(typed) + rest == rest;
      assert e.buffer + typed == e.buffer;
    } else {
      var e1 := Insert(e, typed[0]);
      InsertAtEnd(h, e, typed);
      TypingAppends(h, e1, typed[1..], rest);
      TypingStep(h, e, typed, rest);
    }
  }

  /** Inserting the first character at the end and then appending the rest
      appends the whole string. */
  lemma InsertAtEnd(h: seq<string>, e: Editor, typed: string)
    requires Valid(e, h) && e.cursor == |e.buffer| && |typed| > 0 && Printable(typed[0])
    ensures var e1 := Insert(e, typed[0]);
      e1.cursor == |e1.buffer| && Valid(e1, h) && TypedAtEnd(e1, typed[1..]) == TypedAtEnd(e, typed)
  {
    var e1 := Insert(e, typed[0]);
    assert e1.buffer == e.buffer + [typed[0]];
    assert e1.buffer + typed[1..] == e.buffer + typed;
  }

  /** The inductive step of `TypingAppends`: the first character is one
      insertion, after which the rest is typed at the end. */
  lemma TypingStep(h: seq<string>, e: Editor, typed: string, rest: seq<int>)
    requires Valid(e, h) && e.cursor == |e.buffer| && |typed| > 0 && Printable(typed[0])
    requires Edit(h, Insert(e, typed[0]), Codes(typed[1..]) + rest, 0) == Edit(h, TypedAtEnd(e, typed), rest, 0)
    ensures Edit(h, e, Codes(typed) + rest, 0) == Edit(h, TypedAtEnd(e, typed), rest, 0)
  {
    var c := typed[0];
    var e1 := Insert(e, c);
    var tail := Codes(typed[1..]) + rest;
    var final := TypedAtEnd(e, typed);
    CodesCons(typed, rest);
    calc {
      Edit(h, e, Codes(typed) + rest, 0);
      Edit(h, e, [c as int] + tail, 0);
      { TypeOne(h, e, c, tail); }
      Edit(h, e1, tail, 0);
      Edit(h, final, rest, 0);
    }
  }

  /** Reading from position `i` is reading the suffix from 0. */
  lemma {:induction false} EditShift(h: seq<string>, e: Editor, input: seq<int>, i: nat)
    requires Valid(e, h) && i <= |input|
    ensures Edit(h, e, input, i) == Edit(h, e, input[i..], 0)
    decreases |input| - i
  {
    var t := input[i..];
    if i < |input| {
      var s := StepKey(h, e, input, i);
      StepShift(h, e, input, i);
      EditStep(h, e, input, i);
      EditStep(h, e, t, 0);
      if s.Continue? {
        var e', j := s.e, i + s.used;
        assert Valid(e', h) && i < j <= |input|;
        EditShift(h, e', input, j);
        EditShift(h, e', t, s.used);
        assert t[s.used..] == input[j..];
      }
    }
  }

  /** The loop after one step: the line on Enter, nothing when the input
      runs out, otherwise the loop from the next state. */
  lemma EditStep(h: seq<string>, e: Editor, input: seq<int>, i: nat)
    requires Valid(e, h) && i < |input|
    ensures var s := StepKey(h, e, input, i);
      && (s.Done? ==> Edit(h, e, input, i) == Some(s.line))
      && (s.Starved? ==> Edit(h, e, input, i) == None)
      && (s.Continue? ==> Edit(h, e, input, i) == Edit(h, s.e, input, i + s.used))
  {
  }

  /** One step reads the same codes from position `i` as from the start of
      the suffix there. */
  lemma StepShift(h: seq<string>, e: Editor, input: seq<int>, i: nat)
    requires Valid(e, h) && i < |input|
    ensures StepKey(h, e, input, i) == StepKey(h, e, input[i..], 0)
  {
    var t := input[i..];
    assert t[0] == input[i];
    assert i + 1 < |input| ==> t[1] == input[i + 1];
    assert i + 2 < |input| ==> t[2] == input[i + 2];
  }

  /** A line of printable characters followed by Enter is returned as
      typed. */
  lemma ReadLineTyped(h: seq<string>, line: string)
    requires forall k :: 0 <= k < |line| ==> Printable(line[k])
    ensures ReadLine(h, Codes(line) + [Enter]) == Some(line)
  {
    TypingAppends(h, Fresh(h), line, [Enter]);
    assert "" + line == line;
  }
}
