/** The lexer (class Lexer): a line-oriented scanner that turns source text
    into tokens, keeping a stack of indentation widths and emitting NEWLINE,
    INDENT and DEDENT tokens for the layout. Only the characters it handles
    are accepted: letters and `_` start identifiers, `"` starts a string,
    `{ } ( ) . ->` are symbols, `#` starts a comment; anything else, digits
    and operators included, is an error. */
module Lexer {
  import opened Results
  import opened Text
  import opened Tokens

  /** The keyword table: these six words become their own kinds. */
  const Keywords: map<string, Kind> :=
    map["app" := APP, "window" := WINDOW, "func" := FUNC,
        "expose" := EXPOSE, "connect" := CONNECT, "package" := PACKAGE]

  /** The scanner state: position, line, column and the indentation
      stack. The tokens each step pushes are returned next to it. */
  datatype State = State(pos: nat, line: int, col: int, stack: seq<int>)

  /** The state after one step and the tokens that step pushed. */
  datatype Emitted = Emitted(st: State, toks: seq<Token>)

  /** The constructor: position 0, line 1, column 1, stack [0]. */
  function Start(): (st: State)
    ensures st.pos == 0 && st.line == 1 && st.col == 1 && st.stack == [0]
  {
    State(0, 1, 1, [0])
  }

  /** `peek()`: the character at `pos`, or '\0' past the end. */
  function Peek(src: string, pos: nat): char {
    CharAtOrNul(src, pos)
  }

  /** The indentation stack starts at 0 and strictly increases. */
  predicate StackOk(stack: seq<int>) {
    |stack| >= 1 && stack[0] == 0 && forall i :: 0 < i < |stack| ==> stack[i - 1] < stack[i]
  }

  function Top(stack: seq<int>): int
    requires |stack| >= 1
  {
    stack[|stack| - 1]
  }

  predicate Valid(src: string, st: State) {
    st.pos <= |src| && StackOk(st.stack)
  }

  /** The number of occurrences of `c`, counted from the back. */
  function CountChar(c: char, s: string): (n: nat)
    ensures n <= |s|
  {
    if |s| == 0 then 0
    else CountChar(c, s[..|s| - 1]) + (if s[|s| - 1] == c then 1 else 0)
  }

  function LineText(line: int): string {
    Decimal(line)
  }

  /** What a step accounts for: each INDENT it pushes opens a level and
      each DEDENT closes one, it pushes no EOF, and it pushes one NEWLINE
      per '\n' it consumes. */
  predicate Accounts(src: string, st: State, st': State, toks: seq<Token>)
    requires st.pos <= st'.pos <= |src|
  {
    CountKind(INDENT, toks) + |st.stack| == CountKind(DEDENT, toks) + |st'.stack|
    && CountKind(EOF_TOKEN, toks) == 0
    && CountKind(NEWLINE, toks) == CountChar('\n', src[st.pos..st'.pos])
  }

  // ---------------------------------------------------------------------
  // Character runs
  // ---------------------------------------------------------------------

  /** The end of the run of `isAlphaNumeric` characters starting at `i`. */
  function WordEnd(src: string, i: nat): (j: nat)
    requires i <= |src|
    ensures i <= j <= |src|
    ensures forall k :: i <= k < j ==> IsWordChar(src[k])
    ensures j < |src| ==> !IsWordChar(src[j])
    decreases |src| - i
  {
    if i < |src| && IsWordChar(src[i]) then WordEnd(src, i + 1) else i
  }

  /** The end of the run of blanks ' ' starting at `i`. */
  function SpaceEnd(src: string, i: nat): (j: nat)
    requires i <= |src|
    ensures i <= j <= |src|
    ensures forall k :: i <= k < j ==> src[k] == ' '
    ensures j < |src| ==> src[j] != ' '
    decreases |src| - i
  {
    if i < |src| && src[i] == ' ' then SpaceEnd(src, i + 1) else i
  }

  /** `skipComment`: the first '\n' or '\0' at or after `i`. */
  function CommentEnd(src: string, i: nat): (j: nat)
    requires i <= |src|
    ensures i <= j <= |src|
    ensures forall k :: i <= k < j ==> src[k] != '\n' && src[k] != '\0'
    ensures j < |src| ==> src[j] == '\n' || src[j] == '\0'
    decreases |src| - i
  {
    if i < |src| && src[i] != '\n' && src[i] != '\0' then CommentEnd(src, i + 1) else i
  }

  /** The first '"', '\n' or '\0' at or after `i`: where a string body
      stops. */
  function StringEnd(src: string, i: nat): (j: nat)
    requires i <= |src|
    ensures i <= j <= |src|
    ensures forall k :: i <= k < j ==> src[k] != '"' && src[k] != '\n' && src[k] != '\0'
    ensures j < |src| ==> src[j] == '"' || src[j] == '\n' || src[j] == '\0'
    decreases |src| - i
  {
    if i < |src| && src[i] != '"' && src[i] != '\n' && src[i] != '\0' then StringEnd(src, i + 1) else i
  }

  // ---------------------------------------------------------------------
  // Counting lemmas
  // ---------------------------------------------------------------------

  lemma {:induction false} CountCharConcat(c: char, a: string, b: string)
    ensures CountChar(c, a + b) == CountChar(c, a) + CountChar(c, b)
    decreases |b|
  {
    if |b| == 0 {
      assert a + b == a;
    } else {
      assert (a + b)[..|a + b| - 1] == a + b[..|b| - 1];
      CountCharConcat(c, a, b[..|b| - 1]);
    }
  }

  lemma {:induction false} CountCharNone(c: char, s: string)
    requires forall k :: 0 <= k < |s| ==> s[k] != c
    ensures CountChar(c, s) == 0
    decreases |s|
  {
    if |s| > 0 {
      CountCharNone(c, s[..|s| - 1]);
    }
  }

  /** Splitting the consumed text at `j`. */
  lemma CountCharSplit(c: char, s: string, i: nat, j: nat, k: nat)
    requires i <= j <= k <= |s|
    ensures CountChar(c, s[i..k]) == CountChar(c, s[i..j]) + CountChar(c, s[j..k])
  {
    assert s[i..k] == s[i..j] + s[j..k];
    CountCharConcat(c, s[i..j], s[j..k]);
  }

  lemma CountCharSuffix(c: char, s: string, i: nat, j: nat)
    requires i <= j <= |s|
    ensures CountChar(c, s[i..]) == CountChar(c, s[i..j]) + CountChar(c, s[j..])
  {
    CountCharSplit(c, s, i, j, |s|);
    assert s[i..] == s[i..|s|];
    assert s[j..] == s[j..|s|];
  }

  /** A run of characters other than '\n'. */
  lemma NoNewlines(src: string, i: nat, j: nat)
    requires i <= j <= |src|
    requires forall k :: i <= k < j ==> src[k] != '\n'
    ensures CountChar('\n', src[i..j]) == 0
  {
    CountCharNone('\n', src[i..j]);
  }

  /** The counts of a single token. */
  lemma CountSingle(t: Token, k: Kind)
    ensures CountKind(k, [t]) == if t.kind == k then 1 else 0
  {
    assert [t][..0] == [];
  }

  /** n DEDENTs count as n DEDENTs and nothing else. */
  lemma {:induction false} CountDedents(n: nat, t: Token, k: Kind)
    requires t.kind == DEDENT
    ensures CountKind(k, seq(n, _ => t)) == if k == DEDENT then n else 0
    decreases n
  {
    if n > 0 {
      assert seq(n, _ => t)[..n - 1] == seq(n - 1, _ => t);
      CountDedents(n - 1, t, k);
    }
  }

  // ---------------------------------------------------------------------
  // Words and strings
  // ---------------------------------------------------------------------

  /** `identifier()`: the maximal run of letters, digits and `_` starting
      at `i`; a word of the keyword table gets its own kind, any other word
      is an IDENTIFIER. The token carries the column where the word
      started. */
  function WordToken(src: string, i: nat, line: int, col: int): (t: Token)
    requires i < |src| && IsWordChar(src[i])
    ensures 0 < |t.text| <= |src| - i && t.text == src[i..i + |t.text|]
    ensures forall k :: i <= k < i + |t.text| ==> IsWordChar(src[k])
    ensures i + |t.text| == |src| || !IsWordChar(src[i + |t.text|])
    ensures t.text in Keywords ==> t.kind == Keywords[t.text]
    ensures t.text !in Keywords ==> t.kind == IDENTIFIER
    ensures t.line == line && t.col == col
  {
    var j := WordEnd(src, i);
    var text := src[i..j];
    Token(if text in Keywords then Keywords[text] else IDENTIFIER, text, line, col)
  }

  function UnterminatedMessage(line: int): string {
    "Unterminated string literal at line " + LineText(line)
  }

  /** `stringLiteral()`: the raw characters between the quote at `i` and
      the next quote, with no escape processing. A newline, a NUL or the
      end of the text before the closing quote is an error. */
  function StringToken(src: string, i: nat, line: int, col: int): (r: Result<Token>)
    requires i < |src| && src[i] == '"'
    ensures r.Ok? ==> var n := |r.value.text|;
      i + 1 + n < |src| && src[i + 1 + n] == '"' && r.value == Token(STRING, src[i + 1..i + 1 + n], line, col)
    ensures r.Ok? ==> forall k :: i < k < i + 1 + |r.value.text| ==> src[k] != '"' && src[k] != '\n' && src[k] != '\0'
    ensures r.Err? ==> r.msg == UnterminatedMessage(line)
    ensures r.Err? ==> forall k :: i < k < |src| && src[k] == '"' ==> exists m :: i < m < k && (src[m] == '\n' || src[m] == '\0')
  {
    var j := StringEnd(src, i + 1);
    if j < |src| && src[j] == '"' then
      Ok(Token(STRING, src[i + 1..j], line, col))
    else
      assert forall k :: i < k < |src| && src[k] == '"' ==> i < j < k && (src[j] == '\n' || src[j] == '\0');
      Err(UnterminatedMessage(line))
  }

  // ---------------------------------------------------------------------
  // Indentation
  // ---------------------------------------------------------------------

  function TabMessage(line: int): string {
    "Tabs are illegal in Link (line " + LineText(line) + ")"
  }

  function IndentMessage(line: int): string {
    "Invalid indentation at line " + LineText(line)
  }

  /** The dedent loop of `handleIndentation` on the stack alone: pops while
      the width is below the top. */
  function PopTo(stack: seq<int>, count: nat): (r: seq<int>)
    requires StackOk(stack)
    ensures StackOk(r) && Top(r) <= count
    ensures |r| <= |stack| && r == stack[..|r|]
    ensures forall i :: |r| <= i < |stack| ==> count < stack[i]
    decreases |stack|
  {
    if count < Top(stack) then PopTo(stack[..|stack| - 1], count) else stack
  }

  /** In a strictly increasing stack no level exceeds the top. */
  lemma StackBelowTop(stack: seq<int>, i: nat)
    requires StackOk(stack) && i < |stack|
    ensures stack[i] <= Top(stack)
    decreases |stack| - i
  {
    if i < |stack| - 1 {
      StackBelowTop(stack, i + 1);
    }
  }

  /** The stack decision of `handleIndentation` for a line indented by
      `count` blanks: deeper than the top pushes `count`; otherwise levels
      are popped down to `count`, which must be one of the open levels. */
  function Indentation(stack: seq<int>, count: nat): (r: Option<seq<int>>)
    requires StackOk(stack)
    ensures r.Some? ==> StackOk(r.value)
    ensures count > Top(stack) ==> r == Some(stack + [count])
    ensures count <= Top(stack) ==> (r.Some? <==> count in stack)
    ensures count <= Top(stack) && r.Some? ==>
      Top(r.value) == count && |r.value| <= |stack| && r.value == stack[..|r.value|]
  {
    if count > Top(stack) then Some(stack + [count])
    else
      var popped := PopTo(stack, count);
      if Top(popped) != count then
        assert count !in stack by {
          forall i | 0 <= i < |stack|
            ensures stack[i] != count
          {
            if i < |popped| {
              StackBelowTop(popped, i);
            }
          }
        }
        None
      else
        Some(popped)
  }

  /** The layout tokens for a change of the stack: one INDENT for a push,
      one DEDENT per popped level. */
  function LayoutTokens(before: seq<int>, after: seq<int>, line: int, col: int): (ts: seq<Token>)
  {
    if |after| > |before| then [Token(INDENT, "", line, col)]
    else seq(|before| - |after|, _ => Token(DEDENT, "", line, col))
  }

  /** A push adds one INDENT, a pop of n levels n DEDENTs. */
  lemma LayoutCounts(before: seq<int>, after: seq<int>, line: int, col: int)
    requires |after| == |before| + 1 || |after| <= |before|
    ensures var ts := LayoutTokens(before, after, line, col);
      CountKind(INDENT, ts) + |before| == CountKind(DEDENT, ts) + |after|
      && CountKind(EOF_TOKEN, ts) == 0 && CountKind(NEWLINE, ts) == 0
  {
    var t := Token(INDENT, "", line, col);
    var d := Token(DEDENT, "", line, col);
    if |after| > |before| {
      CountSingle(t, INDENT);
      CountSingle(t, DEDENT);
      CountSingle(t, EOF_TOKEN);
      CountSingle(t, NEWLINE);
    } else {
      CountDedents(|before| - |after|, d, INDENT);
      CountDedents(|before| - |after|, d, DEDENT);
      CountDedents(|before| - |after|, d, EOF_TOKEN);
      CountDedents(|before| - |after|, d, NEWLINE);
    }
  }

  /** `handleIndentation`, run right after a newline: the leading blanks of
      the line are counted. A blank line (only blanks before the next '\n'
      or the end) leaves the stack alone and pushes nothing. Otherwise the
      stack changes as `Indentation` decides and the matching INDENT or
      DEDENTs are pushed, or the line is rejected. */
  function HandleIndentation(src: string, st: State): (r: Result<Emitted>)
    requires Valid(src, st)
    ensures r.Ok? ==> Valid(src, r.value.st) && r.value.st.pos == SpaceEnd(src, st.pos)
    ensures r.Ok? ==> r.value.st.line == st.line
    ensures r.Ok? ==> r.value.toks == LayoutTokens(st.stack, r.value.st.stack, st.line, r.value.st.col)
    ensures r.Ok? ==> |r.value.st.stack| == |st.stack| + 1 || |r.value.st.stack| <= |st.stack|
    ensures var j := SpaceEnd(src, st.pos);
      Peek(src, j) == '\n' || Peek(src, j) == '\0' ==> r.Ok? && r.value.st.stack == st.stack && r.value.toks == []
    ensures var j := SpaceEnd(src, st.pos);
      Peek(src, j) != '\n' && Peek(src, j) != '\0' ==>
        match Indentation(st.stack, j - st.pos)
        case None => r == Err(IndentMessage(st.line))
        case Some(stack) => r.Ok? && r.value.st.stack == stack
  {
    var j := SpaceEnd(src, st.pos);
    var st1 := st.(pos := j, col := st.col + (j - st.pos));
    if Peek(src, j) == '\n' || Peek(src, j) == '\0' then
      assert LayoutTokens(st.stack, st.stack, st.line, st1.col) == [];
      Ok(Emitted(st1, []))
    else
      match Indentation(st.stack, j - st.pos)
      case None => Err(IndentMessage(st.line))
      case Some(stack) =>
        Ok(Emitted(st1.(stack := stack), LayoutTokens(st.stack, stack, st.line, st1.col)))
  }

  // ---------------------------------------------------------------------
  // The main loop
  // ---------------------------------------------------------------------

  function UnexpectedMessage(c: char, line: int): string {
    "Unexpected character '" + [c] + "' at line " + LineText(line)
  }

  /** Consuming `width` characters, none a '\n', and pushing `toks`. */
  function Consume(st: State, width: nat, toks: seq<Token>): (e: Emitted)
    ensures e.st.pos == st.pos + width && e.st.col == st.col + width
    ensures e.st.stack == st.stack && e.st.line == st.line && e.toks == toks
  {
    Emitted(st.(pos := st.pos + width, col := st.col + width), toks)
  }

  /** A step that consumed no '\n' and pushed at most one token of a
      non-layout kind accounts for itself. */
  lemma PlainAccounts(src: string, st: State, e: Emitted)
    requires st.pos <= e.st.pos <= |src| && e.st.stack == st.stack
    requires forall k :: st.pos <= k < e.st.pos ==> src[k] != '\n'
    requires forall i :: 0 <= i < |e.toks| ==> e.toks[i].kind !in {INDENT, DEDENT, EOF_TOKEN, NEWLINE}
    ensures Accounts(src, st, e.st, e.toks)
  {
    NoNewlines(src, st.pos, e.st.pos);
    NoLayout(e.toks);
  }

  /** Tokens of other kinds count as no layout at all. */
  lemma NoLayout(ts: seq<Token>)
    requires forall i :: 0 <= i < |ts| ==> ts[i].kind !in {INDENT, DEDENT, EOF_TOKEN, NEWLINE}
    ensures CountKind(INDENT, ts) == 0 && CountKind(DEDENT, ts) == 0
    ensures CountKind(EOF_TOKEN, ts) == 0 && CountKind(NEWLINE, ts) == 0
  {
    CountKindNone(INDENT, ts);
    CountKindNone(DEDENT, ts);
    CountKindNone(EOF_TOKEN, ts);
    CountKindNone(NEWLINE, ts);
  }

  /** The '\n' branch of `tokenize`: a NEWLINE token at the column after
      the '\n', the line counter advanced, the column reset to 1, then
      `handleIndentation`. */
  function Newline(src: string, st: State): (r: Result<Emitted>)
    requires Valid(src, st) && st.pos < |src| && src[st.pos] == '\n'
    ensures r.Ok? ==> Valid(src, r.value.st) && r.value.st.pos > st.pos && r.value.st.line == st.line + 1
    ensures r.Ok? ==> |r.value.toks| > 0 && r.value.toks[0] == Token(NEWLINE, "", st.line, st.col + 1)
    ensures r.Ok? ==> Accounts(src, st, r.value.st, r.value.toks)
  {
    var t := Token(NEWLINE, "", st.line, st.col + 1);
    var st1 := State(st.pos + 1, st.line + 1, 1, st.stack);
    var e :- HandleIndentation(src, st1);
    var toks := [t] + e.toks;
    NewlineAccounts(src, st, st1, e, t);
    Ok(Emitted(e.st, toks))
  }

  lemma NewlineAccounts(src: string, st: State, st1: State, e: Emitted, t: Token)
    requires st.pos < |src| && src[st.pos] == '\n' && st1.pos == st.pos + 1 && st1.stack == st.stack
    requires st1.pos <= e.st.pos <= |src| && t.kind == NEWLINE
    requires forall k :: st1.pos <= k < e.st.pos ==> src[k] == ' '
    requires |e.st.stack| == |st1.stack| + 1 || |e.st.stack| <= |st1.stack|
    requires e.toks == LayoutTokens(st1.stack, e.st.stack, st1.line, e.st.col)
    ensures Accounts(src, st, e.st, [t] + e.toks)
  {
    NewlineKinds(t, st1.stack, e.st.stack, st1.line, e.st.col);
    NewlineChars(src, st.pos, e.st.pos);
  }

  /** The NEWLINE token and the layout tokens after it. */
  lemma NewlineKinds(t: Token, before: seq<int>, after: seq<int>, line: int, col: int)
    requires t.kind == NEWLINE && (|after| == |before| + 1 || |after| <= |before|)
    ensures var ts := [t] + LayoutTokens(before, after, line, col);
      CountKind(INDENT, ts) + |before| == CountKind(DEDENT, ts) + |after|
      && CountKind(EOF_TOKEN, ts) == 0 && CountKind(NEWLINE, ts) == 1
  {
    var ls := LayoutTokens(before, after, line, col);
    LayoutCounts(before, after, line, col);
    PrefixCount(INDENT, t, ls);
    PrefixCount(DEDENT, t, ls);
    PrefixCount(EOF_TOKEN, t, ls);
    PrefixCount(NEWLINE, t, ls);
  }

  /** A '\n' followed by blanks holds one '\n'. */
  lemma NewlineChars(src: string, i: nat, j: nat)
    requires i < j <= |src| && src[i] == '\n'
    requires forall k :: i < k < j ==> src[k] != '\n'
    ensures CountChar('\n', src[i..j]) == 1
  {
    CountCharSplit('\n', src, i, i + 1, j);
    NoNewlines(src, i + 1, j);
    assert src[i..i + 1] == ['\n'];
    assert CountChar('\n', ['\n']) == 1 by {
      assert ['\n'][..0] == [];
    }
  }

  /** One token in front of a stream counts once, for its own kind. */
  lemma PrefixCount(k: Kind, t: Token, ts: seq<Token>)
    ensures CountKind(k, [t] + ts) == CountKind(k, ts) + if t.kind == k then 1 else 0
  {
    CountSingle(t, k);
    CountKindConcat(k, [t], ts);
  }

  /** The characters the main loop has a branch for; '-' only as the start
      of "->". The look-ahead past the last character reads '\0', as
      `src[pos + 1]` does on a `std::string`. */
  predicate Handled(src: string, i: nat)
    requires i < |src|
  {
    var c := src[i];
    c == '#' || c == '\n' || c == ' ' || c == '\t' || IsAlpha(c) || c == '_' || c == '"'
    || c == '{' || c == '}' || c == '(' || c == ')' || c == '.'
    || (c == '-' && Peek(src, i + 1) == '>')
  }

  /** The branches of `tokenize` that stay on the current line. */
  function StepOnLine(src: string, st: State): (r: Result<Emitted>)
    requires Valid(src, st) && st.pos < |src| && src[st.pos] != '\n'
    ensures r.Ok? ==> Valid(src, r.value.st) && r.value.st.pos > st.pos && r.value.st.stack == st.stack
    ensures r.Ok? ==> forall k :: st.pos <= k < r.value.st.pos ==> src[k] != '\n'
    ensures r.Ok? ==> |r.value.toks| <= 1
    ensures r.Ok? ==> forall i :: 0 <= i < |r.value.toks| ==> r.value.toks[i].kind !in {INDENT, DEDENT, EOF_TOKEN, NEWLINE}
    ensures !Handled(src, st.pos) ==> r == Err(UnexpectedMessage(src[st.pos], st.line))
  {
    var c := src[st.pos];
    if c == '#' || c == ' ' || c == '\t' then BlankStep(src, st)
    else if IsAlpha(c) || c == '_' || c == '"' then LiteralStep(src, st)
    else SymbolStep(src, st)
  }

  /** Comments and runs of blanks: nothing is emitted, and a tab anywhere in
      a run of blanks is an error. */
  function BlankStep(src: string, st: State): (r: Result<Emitted>)
    requires Valid(src, st) && st.pos < |src| && src[st.pos] in {'#', ' ', '\t'}
    ensures r.Ok? ==> Valid(src, r.value.st) && r.value.st.pos > st.pos && r.value.st.stack == st.stack
    ensures r.Ok? ==> forall k :: st.pos <= k < r.value.st.pos ==> src[k] != '\n'
    ensures r.Ok? ==> r.value.toks == []
    ensures src[st.pos] == '#' ==> r.Ok? && r.value.st.pos == CommentEnd(src, st.pos)
    ensures src[st.pos] == '\t' ==> r == Err(TabMessage(st.line))
    ensures src[st.pos] == ' ' ==> (r.Ok? <==> Peek(src, SpaceEnd(src, st.pos)) != '\t')
  {
    if src[st.pos] == '#' then
      var j := CommentEnd(src, st.pos);
      Ok(Consume(st, j - st.pos, []))
    else
      var j := SpaceEnd(src, st.pos);
      if Peek(src, j) == '\t' then Err(TabMessage(st.line))
      else Ok(Consume(st, j - st.pos, []))
  }

  /** Words (keywords and identifiers) and string literals: one token. */
  function LiteralStep(src: string, st: State): (r: Result<Emitted>)
    requires Valid(src, st) && st.pos < |src|
    requires IsAlpha(src[st.pos]) || src[st.pos] == '_' || src[st.pos] == '"'
    ensures r.Ok? ==> Valid(src, r.value.st) && r.value.st.pos > st.pos && r.value.st.stack == st.stack
    ensures r.Ok? ==> forall k :: st.pos <= k < r.value.st.pos ==> src[k] != '\n'
    ensures r.Ok? ==> |r.value.toks| == 1 && r.value.toks[0].kind !in {INDENT, DEDENT, EOF_TOKEN, NEWLINE}
    ensures src[st.pos] != '"' ==> r.Ok? && r.value.toks == [WordToken(src, st.pos, st.line, st.col)]
    ensures src[st.pos] == '"' ==> (r.Ok? <==> StringToken(src, st.pos, st.line, st.col).Ok?)
    ensures src[st.pos] == '"' && r.Ok? ==> r.value.toks == [StringToken(src, st.pos, st.line, st.col).value]
  {
    if src[st.pos] != '"' then
      var t := WordToken(src, st.pos, st.line, st.col);
      Ok(Consume(st, |t.text|, [t]))
    else
      var t :- StringToken(src, st.pos, st.line, st.col);
      Ok(Consume(st, |t.text| + 2, [t]))
  }

  /** The symbol branches and the final error of the main loop. */
  function SymbolStep(src: string, st: State): (r: Result<Emitted>)
    requires Valid(src, st) && st.pos < |src| && src[st.pos] != '\n'
    ensures r.Ok? ==> r.value.st.stack == st.stack && r.value.st.line == st.line
    ensures r.Ok? ==> st.pos < r.value.st.pos <= |src| && r.value.st.pos <= st.pos + 2
    ensures r.Ok? ==> forall k :: st.pos <= k < r.value.st.pos ==> src[k] != '\n'
    ensures r.Ok? ==> |r.value.toks| == 1 && r.value.toks[0].kind in {LBRACE, RBRACE, LPAREN, RPAREN, ARROW, DOT}
    ensures r.Ok? ==> r.value.toks[0].col == r.value.st.col
    ensures !Handled(src, st.pos) ==> r == Err(UnexpectedMessage(src[st.pos], st.line))
  {
    var c := src[st.pos];
    if c == '{' then Ok(Consume(st, 1, [Token(LBRACE, "", st.line, st.col + 1)]))
    else if c == '}' then Ok(Consume(st, 1, [Token(RBRACE, "", st.line, st.col + 1)]))
    else if c == '(' then Ok(Consume(st, 1, [Token(LPAREN, "(", st.line, st.col + 1)]))
    else if c == ')' then Ok(Consume(st, 1, [Token(RPAREN, ")", st.line, st.col + 1)]))
    else if c == '-' && Peek(src, st.pos + 1) == '>' then Ok(Consume(st, 2, [Token(ARROW, "", st.line, st.col + 2)]))
    else if c == '.' then Ok(Consume(st, 1, [Token(DOT, "", st.line, st.col + 1)]))
    else Err(UnexpectedMessage(c, st.line))
  }

  /** One pass of the main loop of `tokenize`, dispatching on the current
      character. Symbol tokens take the column after the symbol, because
      `makeToken` runs after `advance`; words and strings take the column
      where they start. */
  function Step(src: string, st: State): (r: Result<Emitted>)
    requires Valid(src, st) && st.pos < |src|
    ensures r.Ok? ==> Valid(src, r.value.st) && r.value.st.pos > st.pos
    ensures r.Ok? ==> Accounts(src, st, r.value.st, r.value.toks)
  {
    if src[st.pos] == '\n' then Newline(src, st)
    else
      var r := StepOnLine(src, st);
      if r.Ok? then
        PlainAccounts(src, st, r.value);
        r
      else r
  }

  /** The closing loop of `tokenize`: one DEDENT per open level above 0,
      then the single EOF. */
  function Finish(st: State): (ts: seq<Token>)
    requires StackOk(st.stack)
    ensures |ts| == |st.stack| && ts[|ts| - 1] == Token(EOF_TOKEN, "", st.line, st.col)
    ensures forall i :: 0 <= i < |ts| - 1 ==> ts[i] == Token(DEDENT, "", st.line, st.col)
  {
    seq(|st.stack| - 1, _ => Token(DEDENT, "", st.line, st.col)) + [Token(EOF_TOKEN, "", st.line, st.col)]
  }

  lemma FinishCount(st: State, k: Kind)
    requires StackOk(st.stack)
    ensures CountKind(k, Finish(st)) == if k == DEDENT then |st.stack| - 1 else if k == EOF_TOKEN then 1 else 0
  {
    var d := Token(DEDENT, "", st.line, st.col);
    var eof := Token(EOF_TOKEN, "", st.line, st.col);
    var ds := seq(|st.stack| - 1, _ => d);
    assert Finish(st) == ds + [eof];
    CountDedents(|st.stack| - 1, d, k);
    CountKindAppend(k, ds, eof);
  }

  /** The tokens from state `st` to the end of the text account for the
      open levels and the '\n's ahead: one more DEDENT than INDENT per
      level open above 0, one EOF and it is last, one NEWLINE per '\n'. */
  predicate Closes(src: string, st: State, ts: seq<Token>)
    requires st.pos <= |src|
  {
    CountKind(INDENT, ts) + |st.stack| - 1 == CountKind(DEDENT, ts)
    && |ts| > 0 && ts[|ts| - 1].kind == EOF_TOKEN
    && CountKind(EOF_TOKEN, ts) == 1
    && CountKind(NEWLINE, ts) == CountChar('\n', src[st.pos..])
  }

  /** At the end of the text the closing tokens close every open level. */
  lemma FinishCloses(src: string, st: State)
    requires Valid(src, st) && st.pos >= |src|
    ensures Closes(src, st, Finish(st))
  {
    FinishCount(st, INDENT);
    FinishCount(st, DEDENT);
    FinishCount(st, EOF_TOKEN);
    FinishCount(st, NEWLINE);
    assert src[st.pos..] == "";
  }

  /** Gluing one step's tokens to the rest of the scan. */
  lemma ScanConcat(src: string, st: State, e: Emitted, rest: seq<Token>)
    requires st.pos <= e.st.pos <= |src|
    requires Accounts(src, st, e.st, e.toks) && Closes(src, e.st, rest)
    ensures Closes(src, st, e.toks + rest)
  {
    ConcatKinds(e.toks, rest);
    ConcatNewlines(src, st.pos, e.st.pos, e.toks, rest);
    assert (e.toks + rest)[|e.toks + rest| - 1] == rest[|rest| - 1];
  }

  /** The NEWLINEs of a step and of the rest of the scan add up to the
      '\n's from the step's start to the end of the text. */
  lemma ConcatNewlines(src: string, i: nat, j: nat, a: seq<Token>, b: seq<Token>)
    requires i <= j <= |src|
    requires CountKind(NEWLINE, a) == CountChar('\n', src[i..j])
    requires CountKind(NEWLINE, b) == CountChar('\n', src[j..])
    ensures CountKind(NEWLINE, a + b) == CountChar('\n', src[i..])
  {
    CountKindConcat(NEWLINE, a, b);
    CountCharSuffix('\n', src, i, j);
  }

  /** The layout counts of a concatenation. */
  lemma ConcatKinds(a: seq<Token>, b: seq<Token>)
    ensures CountKind(INDENT, a + b) == CountKind(INDENT, a) + CountKind(INDENT, b)
    ensures CountKind(DEDENT, a + b) == CountKind(DEDENT, a) + CountKind(DEDENT, b)
    ensures CountKind(EOF_TOKEN, a + b) == CountKind(EOF_TOKEN, a) + CountKind(EOF_TOKEN, b)
  {
    CountKindConcat(INDENT, a, b);
    CountKindConcat(DEDENT, a, b);
    CountKindConcat(EOF_TOKEN, a, b);
  }

  /** The main loop of `tokenize` from state `st` to the end of the text. */
  function Scan(src: string, st: State): (r: Result<seq<Token>>)
    requires Valid(src, st)
    ensures r.Ok? ==> Closes(src, st, r.value)
    decreases |src| - st.pos
  {
    if st.pos >= |src| then
      FinishCloses(src, st);
      Ok(Finish(st))
    else
      var e :- Step(src, st);
      var rest :- Scan(src, e.st);
      ScanConcat(src, st, e, rest);
      Ok(e.toks + rest)
  }

  /** Digits (and operators) have no branch in the lexer: a text that
      starts with one is rejected at once. */
  lemma DigitRejected(src: string)
    requires |src| > 0 && IsDigit(src[0])
    ensures Tokenize(src) == Err(UnexpectedMessage(src[0], 1))
  {
    assert !Handled(src, 0);
  }

  /** A finished token stream: INDENTs and DEDENTs balance, it ends with
      the one and only EOF, and it has one NEWLINE per '\n' of the text. */
  predicate WellFormed(src: string, ts: seq<Token>) {
    CountKind(INDENT, ts) == CountKind(DEDENT, ts)
    && |ts| > 0 && ts[|ts| - 1].kind == EOF_TOKEN
    && CountKind(EOF_TOKEN, ts) == 1
    && CountKind(NEWLINE, ts) == CountChar('\n', src)
  }

  /** `tokenize()`: the whole text to tokens, or the message of the first
      error. */
  function Tokenize(src: string): (r: Result<seq<Token>>)
    ensures r.Ok? ==> WellFormed(src, r.value)
  {
    assert src[0..] == src;
    Scan(src, Start())
  }
}
