# Link interpreter core in Dafny

Link is a small, indentation-sensitive scripting language with an
interpreter written in C++. This project models its core as pure Dafny
functions and proves properties of them. The core covers:

- the lexer (`tokenize`): indentation becomes INDENT and DEDENT tokens;
- the recursive-descent parser (`parseStatement`, `parseExpression` and the
  six precedence tiers);
- the `print` renderers of the AST;
- the value type and `printObj`;
- the scope chain (`Environment`);
- the evaluator (`isTruthy`, `objToString`, `findMethod`, `evaluateExpr`,
  `runStatement`, `execute`, and the natives `len`, `range`, `list.add`,
  `list.pop`);
- the string helpers (`pop`, `trim`, `replace`, `split`, `merge`,
  `substring`, `toLower`, `toUpper`, `unescape`, `contains`);
- the line editor of the REPL (`addToHistory`, `readLine`).

Modules, one file each:

| module | models |
|---|---|
| `Results`, `Text` | `Result`/`Option`, character classes, `std::to_string`, `std::stoi` |
| `Tokens`, `Lexer` | token kinds, `Lexer::tokenize` and its helpers |
| `Ast`, `AstPrint` | AST nodes, the `print` renderers, and a reader that reads a rendered expression back |
| `Parser`, `ParserFacts` | `Parser`, and the facts about precedence, left association and compound assignment |
| `Values`, `Env` | `Value`, the heap of lists, dicts and instances, `printObj`, and `Environment` |
| `Ops`, `Natives` | operators on values with 32-bit `int` semantics, and the four natives |
| `Runtime`, `RuntimeFacts` | `evaluateExpr`, `runStatement` and `execute`, and the facts about control flow |
| `LinkStr`, `OsStr` | the string helpers |
| `Repl` | the line editor, as a function from key codes to the line read |

Modelling decisions:

- **Objects and scopes.** The C++ `shared_ptr` lists, dicts and instances
  live in a store of objects addressed by handles. Environments live in a
  sequence of scopes, each naming its enclosing scope by index. Aliasing
  therefore behaves as in C++: two variables that hold the same list see
  each other's writes.
- **Integers.** `int` is 32-bit. An `int` result of `+`, `-`, `*` or `/`
  that overflows is `Stuck`, and so is a shift by a count outside 0..31;
  both are undefined behaviour in C++. `<<` by a count in 0..31 keeps the
  low 32 bits of `l * 2^r`, also for a negative `l` or a result that does
  not fit: that is the C++20 rule, while earlier standards leave those
  shifts undefined, and the sources name no standard. `>>` of a negative
  `l` is arithmetic, the C++20 rule as well. Division truncates toward
  zero, and division by zero gives 0.
- **Early outcomes.** The evaluator returns `Done` or an `Abrupt` outcome:
  - `Return`, `Break` and `Continue` model the C++ exceptions.
  - `Fault` is a `RuntimeException`, which `try` catches
    (src/runtime.cpp:1028). No source file throws one: the class is
    declared at include/types.h:100 and only caught, so the catch branch is
    unreachable in the interpreter as written. The model keeps the branch
    and lets the `Host` natives answer with a `Fault`, as an allowance for
    a native that throws one.
  - `Crash` is a lexer or parser error, or a native that aborts; `try` does
    not catch it.
  - `Stuck` is undefined behaviour in the C++.
- **Calls.**
  - The callee scope encloses the global scope.
  - A normal end or a `return` restores the caller's scope.
  - A `break`, a `continue` or a fault that escapes a call leaves the
    callee's scope current. The C++ does not restore it on those paths
    (runtime.cpp:845-859), and neither does the model.
- **Lexer.** The lexer has no branch for digits or operators other than
  `{ } ( ) -> .`. A text using them is rejected (`Lexer.DigitRejected`),
  even though the parser accepts numbers and operators.
- **`return` before `}`.** `Parser.Return` treats `}` like NEWLINE,
  DEDENT and EOF: a bare `return` as the last statement of a one-line
  brace block is a `return` without a value. The C++ parses a value there
  and fails; see "## Findings". `ParserFacts.ReturnAsWritten` is the C++
  version.
- **Termination.** Every evaluator and statement runner takes `fuel`, which
  bounds loop passes and call depth.
- **Outside world.** I/O, the GUI, networking and files are parameters in
  `Host`:
  - `native` answers natives other than the four modelled;
  - `files` is the file system `import` reads;
  - `parse` is the front end `import` runs.

## Model

| member | source | states |
|---|---|---|
| Text.Decimal | src/runtime.cpp:55-57 | `std::to_string` of an int starts with a digit exactly when it is non-negative, and with '-' exactly when it is negative |
| Text.StoI | src/parser.cpp:295 | `std::stoi` gives a value only within the 32-bit range |
| Text.StoIDecimal | src/parser.cpp:295 | `std::stoi` reads back the decimal text of every 32-bit int |
| Text.StoINegative | src/parser.cpp:295 | the round trip for negative ints, minus sign included |
| Text.StoINonNegative | src/parser.cpp:295 | the round trip for non-negative ints |
| Text.DigitsValueOfDigits | src/runtime.cpp:55-57 | the digits written for n are read back as n |
| Text.Find | src/link_str.cpp:24-32 | `find` returns a position at or after the start where the needle occurs |
| Text.FindIsFirst | src/link_str.cpp:24-32 | `find` returns the first occurrence, and `npos` only when there is none |
| LinkStr.Pop | src/link_str.cpp:8-14 | `pop` drops exactly the last character, and leaves "" as it is |
| LinkStr.Trim | src/link_str.cpp:16-22 | `trim` gives the slice between the first and the last character outside " \t\n\r"; everything cut off is white space; the result is "" exactly when the input is all white space |
| LinkStr.TrimIdempotent | src/link_str.cpp:16-22 | trimming twice is trimming once |
| LinkStr.Replace | src/link_str.cpp:24-32 | the `replace` loop computes `ReplaceAll`: each match from left to right, scanning on after the inserted text |
| LinkStr.ReplaceAll | src/link_str.cpp:24-32 | a text without an occurrence of the pattern comes back unchanged |
| LinkStr.ReplaceAt | src/link_str.cpp:27-28 | one replacement keeps the prefix and puts the replacement where the match began |
| LinkStr.ReplaceEmptyFrom | src/link_str.cpp:25 | an empty pattern replaces nothing |
| LinkStr.ReplaceDoesNotRescan | src/link_str.cpp:27-29 | the inserted text is never searched again: for every pattern and replacement, a text that starts with the pattern becomes the replacement followed by the rest replaced on its own, even when the replacement holds the pattern |
| LinkStr.Split | src/link_str.cpp:34-45 | `split` yields at least one piece, and no piece contains the delimiter |
| LinkStr.MergeLength | src/link_str.cpp:47-54 | `merge` of n items puts exactly n - 1 delimiters between them |
| LinkStr.MergeSplit | src/link_str.cpp:34-54 | merging the pieces of a split with the same delimiter gives back the original text |
| LinkStr.Substring | src/link_str.cpp:56-62 | `substring` is "" for a start outside the text, the rest of the text for a negative length, and otherwise the clipped slice |
| LinkStr.ToLower | src/link_str.cpp:64-69 | `toLower` lowers exactly the letters A-Z and keeps the length and every other character |
| LinkStr.ToUpper | src/link_str.cpp:71-76 | `toUpper` raises exactly the letters a-z and keeps the length and every other character |
| LinkStr.CaseIdempotent | src/link_str.cpp:64-76 | case conversion is idempotent, and lowering an uppercased text equals lowering it |
| OsStr.Contains | src/os.cpp:66-68 | `contains` holds exactly when the needle occurs in the haystack; the empty needle is always contained |
| OsStr.UnescapeShrinks | src/os.cpp:70-86 | `unescape` never lengthens a text |
| OsStr.UnescapeNoBackslash | src/os.cpp:70-86 | a text without backslashes is unchanged |
| OsStr.UnescapeEscape | src/os.cpp:70-86 | `unescape` inverts escaping: every text survives escape-then-unescape |
| OsStr.UnescapeEscapeChar | src/os.cpp:73-79 | one escaped character decodes to itself, whatever follows |
| OsStr.UnknownEscapeKept | src/os.cpp:80 | a backslash before a character with no escape meaning is kept |
| OsStr.Escape | src/os.cpp:70-86 | escaping at most doubles the length |
| Tokens.CountKindConcat | src/lexer.cpp:126-211 | token counts add up over a concatenation of streams |
| Lexer.Start | src/lexer.cpp:19-22 | the lexer starts at position 0, line 1, column 1, with the indentation stack [0] |
| Lexer.WordToken | src/lexer.cpp:55-69 | a word is the longest run of letters, digits and '_'; the six keywords get their own kinds and every other word is an IDENTIFIER |
| Lexer.StringToken | src/lexer.cpp:71-89 | a string literal is the text up to the next '"' with no newline before it; otherwise the error names the line |
| Lexer.CommentEnd | src/lexer.cpp:120-124 | a comment runs up to the first newline or NUL |
| Lexer.PopTo | src/lexer.cpp:104-113 | dedenting pops exactly the levels above the new column and keeps the stack strictly increasing |
| Lexer.Indentation | src/lexer.cpp:91-118 | a deeper column pushes one level; a shallower one succeeds exactly when it is a level on the stack, and then becomes the top |
| Lexer.LayoutCounts | src/lexer.cpp:104-116 | a push emits one INDENT and a pop of n levels emits n DEDENTs, so INDENTs minus DEDENTs track the stack depth |
| Lexer.HandleIndentation | src/lexer.cpp:91-118 | blank lines change no level; otherwise the new stack is the one `Indentation` gives, or the error for a column that matches no level |
| Lexer.Newline | src/lexer.cpp:137-144 | a newline emits one NEWLINE, moves to the next line and accounts for the layout tokens after it |
| Lexer.BlankStep | src/lexer.cpp:132-135 | a comment is skipped to its end, a tab is an error, and blanks are skipped unless a tab follows |
| Lexer.LiteralStep | src/lexer.cpp:151-159 | a word or a string literal emits exactly one token, the one `WordToken` or `StringToken` gives |
| Lexer.SymbolStep | src/lexer.cpp:161-201 | each of `{ } ( ) -> .` emits its one token; any other character is the unexpected-character error |
| Lexer.Step | src/lexer.cpp:126-201 | every step of the main loop moves forward and accounts for its newlines and layout tokens |
| Lexer.Finish | src/lexer.cpp:204-209 | at the end, one DEDENT per open level above 0 and then one EOF |
| Lexer.FinishCount | src/lexer.cpp:204-209 | the closing tokens are n - 1 DEDENTs and one EOF for a stack of depth n |
| Lexer.Scan | src/lexer.cpp:126-211 | the tokens from any state close every open level, end with the one EOF and hold one NEWLINE per newline ahead |
| Lexer.Tokenize | src/lexer.cpp:126-211 | a successful `tokenize` balances INDENTs and DEDENTs, ends with the only EOF and has one NEWLINE per '\n' of the text |
| Lexer.DigitRejected | src/lexer.cpp:151-201 | a text starting with a digit is rejected at line 1, since no branch reads numbers |
| Parser.Limit | src/parser.cpp:18 | the cursor limit is the first EOF token, or the end of the stream |
| Parser.AtEnd | src/parser.cpp:18 | `isAtEnd` holds exactly at the limit |
| Parser.Match | src/parser.cpp:9-13 | `match(k)` holds exactly when the current token has kind k, and never at EOF |
| Parser.Consume | src/parser.cpp:14-17 | `consume` returns the matched token's text and moves one on, or fails with the given message |
| Parser.SkipLayout | src/parser.cpp:274-277 | the skip loop stops at the first token that is not NEWLINE, INDENT or DEDENT |
| Parser.SkipNewlines | src/parser.cpp:483 | blank lines after a then-branch are skipped up to the first token that is not NEWLINE |
| Parser.Expression | src/parser.cpp:156-158 | an expression consumes at least one token and stops where no operator of any tier follows |
| Parser.Binary | src/parser.cpp:160-228 | each tier consumes at least one token and stops at the first token that is not one of its operators |
| Parser.BinaryRest | src/parser.cpp:160-228 | a tier's loop never moves backwards and stops where its operators end |
| Parser.Unary | src/parser.cpp:230-236 | a leading `-` parses as `0 - operand`, succeeding exactly when the operand parses; without `-` it is a postfix expression |
| Parser.Postfix | src/parser.cpp:238-272 | a postfix chain stops at the first token that is not `[`, `.` or `(` |
| Parser.PostfixRest | src/parser.cpp:238-272 | with no postfix token under the cursor the operand is returned as it is |
| Parser.NameExpr | src/parser.cpp:336-365 | an identifier followed by neither `.` nor `(` is a variable |
| Parser.Primary | src/parser.cpp:279-373 | a primary expression consumes at least one token on success and never passes EOF; an identifier goes to `Parser.NameExpr`, and every other case to `Parser.Atom` |
| Parser.Atom | src/parser.cpp:280-372 | the non-identifier cases consume at least one token on success and never pass EOF; `ParserFacts.AtomAtBrace` states the "Unknown token: " failure for a token no case takes |
| Parser.Arguments | src/parser.cpp:29-40 | without `(` the argument list is empty and nothing is consumed |
| Parser.ExprList | src/parser.cpp:29-40 | a comma-separated list holds at least one expression |
| Parser.Keep | src/parser.cpp:20-27 | `parse` keeps a statement and drops a null one |
| Parser.Statement | src/parser.cpp:42-154 | a statement never passes EOF, and before EOF it consumes at least one token |
| Parser.Keyword | src/parser.cpp:43-75 | the statement a keyword starts never moves the cursor back nor past EOF; each keyword's statement is stated by its own parser's row (`Parser.While`, `If`, `For`, `Func`, `Return`, `Import`, `Sh`, `Class`, `Connect`, `Try`) |
| Parser.Import | src/parser.cpp:45-56 | `import` yields an import statement and consumes exactly the name |
| Parser.Sh | src/parser.cpp:71-74 | `sh` succeeds exactly before a string literal, and becomes the property `sh` with that string as its value |
| Parser.CalleeAt | src/parser.cpp:76-151 | a dotted callee is split into object and method only when the object is not a native module |
| Parser.IdentStmt | src/parser.cpp:76-151 | an identifier with nothing that continues it is a call without arguments |
| Parser.SetTarget | src/parser.cpp:386-420 | a variable takes every assignment operator, and a field or index only `=`; a compound operator writes `target op value` |
| Parser.Set | src/parser.cpp:375-421 | `set` consumes at least one token on success and never passes EOF; the statement built from target, operator and value is stated by `Parser.SetTarget`, and `ParserFacts.CompoundIsAssign` states the compound desugaring |
| Parser.While | src/parser.cpp:424-447 | `while` succeeds exactly when a condition and then a block parse, and yields the while statement of that condition and that body, ending where the block ends |
| Parser.If | src/parser.cpp:462-509 | `if` succeeds exactly when a condition, a then-block and an else-branch parse, and yields the conditional of those three, ending where the else-branch ends |
| Parser.ElseForms | src/parser.cpp:483-507 | `elif` becomes an else-branch holding exactly one conditional; with neither `elif` nor `else` the else-branch is empty and nothing is consumed |
| Parser.ElseBranch | src/parser.cpp:483-507 | what follows a then-branch never moves the cursor back nor past EOF; `Parser.ElseForms` states the `elif`, `else` and absent forms |
| Parser.Block | src/parser.cpp:424-447 | a block is either `{` and a brace body, or NEWLINE INDENT and an indented body |
| Parser.BraceBody | src/parser.cpp:428-436 | a brace body never passes the limit and stops at a `}` or at the end |
| Parser.IndentBody | src/parser.cpp:437-445 | an indented body never moves back and never passes the limit |
| Parser.For | src/parser.cpp:511-537 | `for` succeeds exactly when an identifier, `in`, a collection and a block follow, and yields the loop over that collection with that iterator name and body |
| Parser.Window | src/parser.cpp:539-549 | `window` needs an identifier, which names the window |
| Parser.App | src/parser.cpp:449-460 | `app` takes a word or a string as its name |
| Parser.Func | src/parser.cpp:551-580 | a function is named `init` after the `init` keyword and otherwise by the identifier; its parameters are those of the optional parameter list and its body is the block after them, and it succeeds exactly when those parse |
| Parser.FuncParams | src/parser.cpp:556-562 | without `(` a function has no parameters and nothing is consumed; with it, the parameters are the names up to `)` |
| Parser.Names | src/parser.cpp:556-562 | a parameter list holds at least one name, starting with the identifier under the cursor |
| Parser.Class | src/parser.cpp:582-592 | a class needs a name and `{`, and is named by that identifier |
| Parser.Connect | src/parser.cpp:594-601 | `connect` reads exactly `source . event -> target` and builds the statement from those three words |
| Parser.Return | src/parser.cpp:603-610 | `return` has no value exactly when NEWLINE, DEDENT, EOF or `}` follows, and then consumes only a NEWLINE after it |
| Parser.Try | src/parser.cpp:612-630 | `try` needs `{` and yields a try statement |
| Parser.CatchClause | src/parser.cpp:619-627 | the catch clause needs `catch ( name`, and the name is the error variable |
| Parser.Statements | src/parser.cpp:20-27 | a successful parse reads every token up to EOF |
| Parser.Parse | src/parser.cpp:20-27 | `parse` succeeds exactly when the statement loop does, which then reads every token up to EOF; a stream that starts at EOF is the empty program |
| Parser.ParseSource | src/runtime.cpp:1080-1083 | lexing then parsing fails with the lexer's message when the lexer fails, and otherwise is the parse of the tokens |
| ParserFacts.BinaryRestFolds | src/parser.cpp:160-228 | a tier's loop builds the left fold of the operands it reads |
| ParserFacts.BinaryFoldsLeft | src/parser.cpp:160-228 | every tier is left-associative: `a - b - c` is `(a - b) - c` |
| ParserFacts.TiersDisjoint | src/parser.cpp:160-228 | no token is an operator of two tiers |
| ParserFacts.CompoundIsAssign | src/parser.cpp:386-400 | `set x op= v` parses like `set x = x op v` |
| ParserFacts.LoneOperand | src/parser.cpp:160-236 | an operand with no operator after it passes through every tier unchanged |
| ParserFacts.NoStatement | src/parser.cpp:152-153 | a token that starts no statement is skipped and yields null |
| ParserFacts.BraceRun | src/parser.cpp:428-436 | a brace body reads the statements between the cursor and its `}` |
| ParserFacts.IndentRun | src/parser.cpp:437-445 | an indented body reads the statements between the cursor and its DEDENT, and consumes the DEDENT |
| ParserFacts.BlockForms | src/parser.cpp:424-447 | a block written `{ … }` and one written NEWLINE INDENT … DEDENT give the same statements, for every block kind, when the statements between read the same |
| ParserFacts.ReturnAsWritten | src/parser.cpp:603-610 | the C++ `parseReturn`: no value exactly when NEWLINE, DEDENT or EOF follows |
| ParserFacts.ReturnAgrees | src/parser.cpp:603-610 | the C++ `parseReturn` and the model's agree everywhere except before `}` |
| ParserFacts.NoExpressionAtBrace | src/parser.cpp:156-372 | no expression starts at an RBRACE token: every tier fails with "Unknown token: " followed by that token's text, which is empty for a `}` the lexer made |
| ParserFacts.ReturnBeforeBrace | src/parser.cpp:603-610 | before an RBRACE token, the C++ `parseReturn` fails with "Unknown token: " followed by that token's text, and the model's is a bare `return` |
| ParserFacts.BareReturnForms | src/parser.cpp:424-447 | the token streams LBRACE RETURN RBRACE and NEWLINE INDENT RETURN NEWLINE DEDENT give the same one-statement block |
| AstPrint.ExprText | include/ast.h:67-73 | a binary expression renders in parentheses, five characters longer than its operands |
| AstPrint.Line | include/ast.h:95-99 | a rendered line is the indentation, the text and a newline |
| AstPrint.StmtText | include/ast.h:95-227 | a rendered statement starts with its indentation and ends with a newline |
| AstPrint.ElsePart | include/ast.h:127-138 | the `Else:` part is present exactly when the else-branch is non-empty |
| AstPrint.BlockText | include/ast.h:111-116 | a block renders to "" exactly when it is empty |
| AstPrint.ProgramText | include/ast.h:84-86 | a program renders to "" exactly when it has no statements |
| AstPrint.BlockTextConcat | include/ast.h:84-86 | the rendering of two blocks joined is the two renderings joined |
| AstPrint.ProgramTextAppend | include/ast.h:84-86 | adding a statement to a program adds its rendering at indent 0 |
| AstPrint.ReadExprText | include/ast.h:25-73 | rendering is unambiguous: reading a rendered expression gives back the same expression and what follows it |
| AstPrint.ReadBinary | include/ast.h:67-73 | the parenthesised rendering of a binary expression reads back to it |
| AstPrint.ReadNumber | include/ast.h:25 | a rendered number reads back to the same number |
| AstPrint.ReadName | include/ast.h:31 | a rendered name reads back, with `true` and `false` as the booleans |
| AstPrint.ReadString | include/ast.h:45 | a quoted string without quotes reads back |
| AstPrint.StmtLines | include/ast.h:95-227 | every rendered statement is whole lines, each indented at least as deep as the statement |
| AstPrint.BlockLines | include/ast.h:111-116 | every rendered block is whole lines at least as deep as the block |
| AstPrint.ElseLines | include/ast.h:127-138 | the else part is whole lines at least as deep as its conditional |
| Values.ListOf | include/types.h:17-44 | a value is a list exactly when it is a list handle to a list object |
| Values.DictOf | include/types.h:17-44 | a value is a dict exactly when it is a dict handle to a dict object |
| Values.InstanceOf | include/types.h:51-54 | a value is an instance exactly when it is an instance handle to an instance object |
| Values.Alloc | src/runtime.cpp:718-722 | a new object gets a fresh handle and no existing object changes |
| Values.DictGet | src/runtime.cpp:737-751 | a key reads a value exactly when an entry with that key exists |
| Values.DictPut | src/runtime.cpp:723-732 | a write overwrites the entry for its key or adds one |
| Values.DictPutGet | src/runtime.cpp:723-732 | after a write the key reads the new value and every other key reads as before |
| Values.IsTruthy | src/runtime.cpp:684-690 | a value is falsy exactly when it is nil, false, 0 or "" |
| Values.ObjToString | src/runtime.cpp:54-71 | an int converts to a non-empty decimal that starts with '-' exactly when it is negative, a string to itself, a bool to `true` or `false`, and every other value to "" |
| Values.ValueText | include/types.h:55-90 | every scalar prints; a printed list is bracketed and a printed dict is braced; a list or dict below the depth bound does not print |
| Values.EntriesText | include/types.h:70-80 | a dict prints one `"key": value` text per entry, the value printed on its own |
| Values.ObjToStringInt | src/runtime.cpp:54-71 | `objToString` of an int reads back with `std::stoi` |
| Values.ItemsText | include/types.h:61-69 | a list prints one text per element, each element printed on its own |
| Values.ListTextLength | include/types.h:61-69 | a printed list is its brackets, its elements and one ", " between neighbours |
| Values.PrintAgreesWithString | include/types.h:55-90 | `printObj` and `objToString` agree on ints, bools and strings without backslashes |
| Env.Push | include/env.h:12 | a new scope gets a fresh handle and encloses the given scope |
| Env.Define | include/env.h:14-16 | `define` binds in the given scope only, and changes no other scope |
| Env.Nearest | include/env.h:23-33 | the scope `assign` writes is on the chain, and it is the outermost one only when no scope there binds the name |
| Env.GetVisible | include/env.h:18-21 | `get` reads the innermost binding along the chain, and nil when there is none |
| Env.Get | include/env.h:18-21 | a non-nil lookup is a value bound in the scope itself or an older one |
| Env.GetUnbound | include/env.h:21 | a name that no scope on the chain binds reads as nil |
| Env.GetOlder | include/env.h:18-21 | a lookup reads only the scope itself and older scopes |
| Env.DefineGet | include/env.h:14-16 | after `define` the name reads the new value and every other name reads as before |
| Env.AssignWrites | include/env.h:23-33 | `assign` writes exactly the nearest scope that binds the name |
| Env.Assign | include/env.h:23-33 | `assign` keeps the number of scopes, binds the name to the value or leaves each scope as it was, and touches no scope newer than the one it starts from |
| Env.AssignGet | include/env.h:23-33 | after `assign` the name reads the new value and every other name reads as before |
| Env.AssignUnbound | include/env.h:32 | assigning a name that nothing binds creates it in the outermost scope |
| Env.GetPrefix | include/env.h:18-21 | adding scopes changes no lookup from an existing scope |
| Env.PushGet | include/env.h:12-21 | a new scope reads its own bindings first and the enclosing chain otherwise |
| Ops.Wrap | src/runtime.cpp:304-313 | a conversion to `int` keeps the value modulo 2^32 and keeps values already in range |
| Ops.Checked | src/runtime.cpp:899-905 | an `int` result exists exactly when it fits in 32 bits |
| Ops.IntOp | src/runtime.cpp:899-917 | the int switch is undefined only for `+`, `-`, `*` and `/`, every int it yields fits in 32 bits, and every comparison yields a bool |
| Ops.BinaryOp | src/runtime.cpp:868-920 | a binary operator is undefined only on two ints, yields an int, a bool, a string or nil, and yields an int only from two ints and within 32 bits |
| Ops.BitOp | src/runtime.cpp:872-883 | a shift is defined exactly for counts 0 to 31 |
| Ops.QuotTruncates | src/runtime.cpp:899-905 | `/` truncates toward zero: the remainder is smaller than the divisor and has the sign of the dividend |
| Ops.QuotSmaller | src/runtime.cpp:899-905 | a quotient is never larger than the dividend in magnitude |
| Ops.Division | src/runtime.cpp:899-905 | division by zero gives 0, and only INT_MIN / -1 overflows |
| Ops.Arithmetic | src/runtime.cpp:899-905 | `+`, `-` and `*` give the exact result when it fits in 32 bits, and are undefined otherwise |
| Ops.Bitwise | src/runtime.cpp:872-883 | on two ints, bit k of `&`, `|` and `^` is the AND, OR and XOR of bit k of the operands' two's-complement patterns, for every k below 32 |
| Ops.CombineBit | src/runtime.cpp:872-883 | the bit-by-bit combination of two patterns has, at each position, the bit operation applied to the operands' bits at that position |
| Ops.Logical | src/runtime.cpp:885-890 | unless both operands are ints, `&` and `|` combine truthiness |
| Ops.ShiftLeft | src/runtime.cpp:872-883 | `<<` is defined exactly for counts 0 to 31, and then keeps the low 32 bits of `l * 2^r` |
| Ops.ShiftRight | src/runtime.cpp:872-883 | `>>` is defined exactly for counts 0 to 31, and then is the floor of `l / 2^r`, so negative values stay negative |
| Ops.StringPlus | src/runtime.cpp:892-897 | a string plus anything appends the other operand's `objToString` |
| Ops.StringEquality | src/runtime.cpp:914-917 | two strings compare with `==` and `!=` by content |
| Ops.OtherwiseNil | src/runtime.cpp:868-920 | every other combination of operator and operands gives nil |
| Ops.IndexFromEnd | src/runtime.cpp:737-751 | a negative index counts from the end of the list |
| Ops.IndexMisses | src/runtime.cpp:737-751 | an index out of range, a missing key, or an object that is neither list nor dict gives nil |
| Ops.SetIndex | src/runtime.cpp:938-952 | an index write changes only the list written to |
| Ops.SetIndexRead | src/runtime.cpp:938-952 | after an index write that index reads the new value, every other index and every other list read as before, and the length is unchanged |
| Ops.SetIndexMisses | src/runtime.cpp:938-952 | an index write out of range does nothing |
| Ops.FieldOf | src/runtime.cpp:785-792 | a field read on a non-instance is nil |
| Ops.SetField | src/runtime.cpp:794-803 | a field write changes exactly that field of that instance |
| Ops.SetFieldRead | src/runtime.cpp:785-803 | after a field write the field reads the new value and every other field reads as before |
| Ops.FindMethod | src/runtime.cpp:692-697 | `findMethod` finds exactly the methods the class has |
| Ops.MethodTable | src/runtime.cpp:1054-1060 | a class's method table has exactly the names of its declared methods |
| Ops.MethodTableLast | src/runtime.cpp:1054-1060 | the last declaration of a name wins |
| Ops.FindDeclared | src/runtime.cpp:692-697 | a declared class finds exactly the methods it declares |
| Ops.Bind | src/runtime.cpp:845-859 | binding parameters adds exactly the names of the parameters that have an argument |
| Ops.BindBinds | src/runtime.cpp:845-859 | each parameter is bound to its argument, and other names keep their values |
| Natives.Len | src/runtime.cpp:304-313 | `len` is the length of a string, list or dict converted to `int`, and 0 for no argument or any other value |
| Natives.Count | src/runtime.cpp:465-471 | `range` yields 0 to n - 1 in order, and nothing when n is not positive |
| Natives.Range | src/runtime.cpp:465-471 | `range(n)` is a new list of the ints below n |
| Natives.ListAdd | src/runtime.cpp:515-520 | `list.add` appends to the list and returns 0; any other argument changes nothing |
| Natives.ListPop | src/runtime.cpp:453-464 | `list.pop` removes and returns the last element; on an empty list or a non-list it gives nil and changes nothing |
| Natives.LenRange | src/runtime.cpp:304-313 | `len(range(n))` is n |
| Natives.PopUndoesAdd | src/runtime.cpp:453-520 | `list.pop` right after `list.add(x)` returns x and restores the store |
| Runtime.Native | src/runtime.cpp:835-837 | a native keeps the scopes and can only fault or crash, never break or return |
| Runtime.Call | src/runtime.cpp:835-862 | a call lets no `return` escape, restores the caller's scope on a normal end, and only adds scopes and objects |
| Runtime.Invoke | src/runtime.cpp:845-859 | a call consumes the callee's `return`, and on a normal end the caller's scope is current again |
| Runtime.EvalExpr | src/runtime.cpp:702-921 | evaluation lets no `return` escape, restores the current scope on a normal end, and only adds scopes and objects |
| Runtime.EvalNew | src/runtime.cpp:756-781 | `new` lets no `return` escape, restores the current scope on a normal end, and only adds scopes and objects |
| Runtime.EvalMethod | src/runtime.cpp:805-825 | a method call lets no `return` escape, restores the current scope on a normal end, and only adds scopes and objects |
| Runtime.EvalIndex | src/runtime.cpp:737-751 | `object[index]` lets no `return` escape, keeps the current scope on a normal end, and only adds scopes and objects; `RuntimeFacts.IndexReads` and `Ops.IndexMisses` state the value read |
| Runtime.EvalSet | src/runtime.cpp:794-803 | a field write lets no `return` escape, keeps the current scope on a normal end, and only adds scopes and objects; `RuntimeFacts.FieldWrite` states the write |
| Runtime.EvalCall | src/runtime.cpp:830-863 | a call expression lets no `return` escape, keeps the current scope on a normal end, and only adds scopes and objects; `RuntimeFacts.NativeFirst`, `CallMisses` and `CalleeSees` state the call |
| Runtime.EvalBinary | src/runtime.cpp:868-920 | a binary expression lets no `return` escape, keeps the current scope on a normal end, and only adds scopes and objects; `RuntimeFacts.BothOperands` states the order of evaluation and the result |
| Runtime.RunStmt | src/runtime.cpp:924-1094 | a statement only adds scopes and objects, keeps every object's kind and keeps the natives |
| Runtime.RunBlock | src/runtime.cpp:1096-1101 | a block only adds scopes and objects, keeps every object's kind and keeps the natives; `RuntimeFacts.BlockAppend` states how blocks compose and where an early outcome stops them |
| Runtime.RunSet | src/runtime.cpp:932-935 | `set` keeps the same invariant; `RuntimeFacts.SetDefines` states the definition |
| Runtime.RunSetIndex | src/runtime.cpp:938-952 | `l[i] = x` keeps the same invariant; `RuntimeFacts.SetIndexWrites` states the write |
| Runtime.RunIf | src/runtime.cpp:982-989 | `if` keeps the same invariant; `RuntimeFacts.IfTruthy` states which branch runs |
| Runtime.RunReturn | src/runtime.cpp:1037-1041 | `return` keeps the same invariant; `RuntimeFacts.ReturnSkipsRest` states that it ends the block |
| Runtime.While | src/runtime.cpp:990-1003 | a `while` only adds scopes and objects, keeps every object's kind and keeps the natives |
| Runtime.RunFor | src/runtime.cpp:1004-1024 | a `for` keeps the same invariant |
| Runtime.ForEach | src/runtime.cpp:1011-1022 | the passes of a `for` keep the same invariant |
| Runtime.RunTry | src/runtime.cpp:1025-1036 | a `try` keeps the same invariant |
| Runtime.Import | src/runtime.cpp:1073-1093 | an `import` keeps the same invariant |
| Runtime.Execute | src/runtime.cpp:1096-1101 | `execute` runs the statements and keeps the same invariant |
| RuntimeFacts.BlockAppend | src/runtime.cpp:1096-1101 | running two blocks joined is running the first, then the second from where it ended, unless the first ends early |
| RuntimeFacts.ExecuteAppend | src/runtime.cpp:1096-1101 | executing two programs joined is executing their statements in sequence |
| RuntimeFacts.IfTruthy | src/runtime.cpp:982-989 | `if` runs the then-branch exactly when the condition is truthy |
| RuntimeFacts.BothOperands | src/runtime.cpp:868-920 | both operands are evaluated, left then right, even for `&` and `|` |
| RuntimeFacts.NativeFirst | src/runtime.cpp:835-837 | a native answers by name before any user function of the same name |
| RuntimeFacts.CallMisses | src/runtime.cpp:840-862 | an unknown function or a wrong argument count gives nil after evaluating the arguments |
| RuntimeFacts.CalleeSees | src/runtime.cpp:845-859 | a callee sees its parameters and the globals, not the caller's locals, and the caller's scope is current again afterwards |
| RuntimeFacts.NoReturnIsNil | src/runtime.cpp:845-859 | a body that ends without `return` gives nil |
| RuntimeFacts.ReturnSkipsRest | src/runtime.cpp:1037-1041 | the statements after a `return` do not run |
| RuntimeFacts.WhileExits | src/runtime.cpp:990-1003 | a `while` with a falsy condition ends |
| RuntimeFacts.WhileRetests | src/runtime.cpp:990-1003 | after a pass that ends normally or with `continue`, the condition is evaluated again |
| RuntimeFacts.BreakEndsLoop | src/runtime.cpp:990-1003 | `break` in a `while` ends only that loop, and the statements after the loop run |
| RuntimeFacts.ForNonList | src/runtime.cpp:1004-1024 | `for` over a non-list runs no pass |
| RuntimeFacts.ForLeavesLast | src/runtime.cpp:1004-1024 | after `for n in xs` with an empty body, n holds the last element, or 0 when xs is empty |
| RuntimeFacts.EmptyPasses | src/runtime.cpp:1011-1022 | the passes of an empty-bodied `for` assign each element in turn and end at the last |
| RuntimeFacts.ForPass | src/runtime.cpp:1011-1022 | one pass of `for`, for any body: the iterator reads the element, then the body runs; `break` ends the loop with the state the pass left, `continue` or a normal end goes on to the next element, and any other early outcome leaves the loop |
| RuntimeFacts.ForEnds | src/runtime.cpp:1011-1022 | the passes end after the last element; a list resized by the body stops the model |
| RuntimeFacts.ForBreakEndsLoop | src/runtime.cpp:1004-1024 | `break` in a `for` ends only that loop, and the statements after the loop run from the state the pass left |
| RuntimeFacts.TryPassesThrough | src/runtime.cpp:1025-1036 | `try` passes on a normal end and every early outcome except a fault |
| RuntimeFacts.TryCatches | src/runtime.cpp:1025-1036 | a fault runs the catch body in a new scope that binds the error variable to the message |
| RuntimeFacts.NewNonClass | src/runtime.cpp:756-781 | `new` of a non-class gives nil and evaluates no argument |
| RuntimeFacts.NewWithoutInit | src/runtime.cpp:756-781 | `new` of a class without `init` gives a fresh instance with no fields |
| RuntimeFacts.NewWithInit | src/runtime.cpp:764-778 | `new` of a class with `init` makes the instance, evaluates the arguments, runs `init` in a scope enclosed by the global one that binds `this` and the parameters, drops what `init` returns, and yields the instance |
| RuntimeFacts.FieldWrite | src/runtime.cpp:794-803 | a field write yields the value written, and a read of that field gives it back |
| RuntimeFacts.SetDefines | src/runtime.cpp:932-935 | `set n = e` defines `n` in the current scope: `n` reads the value of `e`, and every other name reads as it did after `e` |
| RuntimeFacts.IndexReads | src/runtime.cpp:737-744 | `l[i]` on a list, after evaluating the list and then the index, reads element `i`, counted from the end when `i` is negative |
| RuntimeFacts.SetIndexWrites | src/runtime.cpp:938-952 | `l[i] = x` on a list with `i` in range leaves the list its length and makes `l[i]` read the value of `x` |
| RuntimeFacts.MethodMisses | src/runtime.cpp:805-825 | a method call on a non-instance, or naming a missing method, gives nil |
| RuntimeFacts.ImportMissing | src/runtime.cpp:1073-1093 | importing a missing file changes nothing |
| RuntimeFacts.ImportBadFile | src/runtime.cpp:1073-1093 | a file that does not lex or parse stops the interpreter, even inside `try` |
| Repl.AddToHistory | include/repl_core.h:50-54 | `addToHistory` ignores empty lines and a repeat of the last entry, and appends every other line |
| Repl.AddToHistoryIdempotent | include/repl_core.h:50-54 | adding the same line twice is adding it once |
| Repl.Fresh | include/repl_core.h:55-58 | `readLine` starts with an empty buffer past the last history entry |
| Repl.Recall | include/repl_core.h:106-109 | recalling an entry shows it with the cursor at its end, and past the end shows "" |
| Repl.HistoryUp | include/repl_core.h:96-110 | up moves one entry back and shows it; at the first entry nothing changes |
| Repl.HistoryDown | include/repl_core.h:96-110 | down moves one entry forward, or to the empty line past the end |
| Repl.CursorLeft | include/repl_core.h:111-116 | left moves the cursor one back when possible |
| Repl.CursorRight | include/repl_core.h:117-122 | right moves the cursor one on when possible |
| Repl.Erase | include/repl_core.h:133-142 | backspace removes the character before the cursor and nothing else |
| Repl.Insert | include/repl_core.h:143-152 | a printable key is inserted at the cursor, which moves past it |
| Repl.EraseUndoesInsert | include/repl_core.h:133-152 | backspace right after typing a character undoes it |
| Repl.UpThenDown | include/repl_core.h:96-110 | up then down from a fresh line returns to the empty line |
| Repl.StepKey | include/repl_core.h:64-153 | Enter ends the line with the buffer; every other key keeps the editor consistent |
| Repl.ReadLine | include/repl_core.h:55-154 | an immediate Enter reads the empty line |
| Repl.TypingAppends | include/repl_core.h:143-152 | typing printable characters at the end of the buffer appends them |
| Repl.EditShift | include/repl_core.h:64-153 | reading from a position is reading the rest of the input from its start |
| Repl.ReadLineTyped | include/repl_core.h:55-154 | typing a printable line and Enter reads exactly that line |

## Left out

- Floating-point numbers: the lexer never produces a float token, and the
  parser's `stod` and the stream formatting of doubles are not modelled.
- The natives other than `len`, `range`, `list.add` and `list.pop` are a
  `Host` parameter. They cover the GUI, networking, the terminal, files,
  time and processes, and are foreign calls into the operating system and
  libraries.
- `sh`, `clear` and `cls` run a shell command or clear the terminal. The
  model runs them as no-ops, since the effect lies outside the interpreter.
- Freeing scopes and objects: the store only grows, and nothing the C++
  `delete`s or releases is reclaimed.
- Iteration order of dicts: the C++ `Dict` is a `std::unordered_map`
  (include/types.h:16), whose order is unspecified. The model keeps the
  entries in insertion order, which is one of the orders the C++ may show.
  Only the order of the printed entries depends on this.
- Bytes: a Dafny `char` stands for one byte of a C++ `std::string`, and
  every text in the model is a byte string. A text with multi-byte UTF-8
  characters has its bytes counted, as in C++: `len("é")` is 2.
- Runtime.RunFor: a loop body that resizes the list being iterated over is
  undefined behaviour in the C++ (an invalidated iterator), and the model
  ends such a loop as `Stuck`.
- Runtime.EvalExpr: takes `fuel`. Running out of fuel ends a run as
  `Stuck`, so the model says nothing about a run longer than its fuel.
- Values.ValueText: printing takes a depth bound. A structure that contains
  itself, which overflows the C++ stack, is printed as `None`.
- LinkStr.Split: an empty delimiter loops forever in the C++. The model
  requires a non-empty delimiter.
- A name with a dot inside it (`time.now`) is one variable, as the parser
  builds it. Native modules are not objects.
- AstPrint.StmtText: include/ast.h declares older node shapes. A `for`
  statement renders its collection expression, and a call statement renders
  at most its first argument. Nodes without a renderer in the header are
  outside `PrintableStmt`.
- Parser.Try: a null statement inside a `try` or `catch` body is dropped.
  The C++ keeps it, and `runStatement` ignores a null statement, so the
  behaviour is the same.
- LinkStr.Substring: src/link_str.cpp:60 has a stray line of text without
  `//`. It is read as a comment.
- Parser.Expression: the contracts of the expression parsers state progress
  and where the parse stops, not the tree built. The tree is stated by
  ParserFacts.BinaryFoldsLeft and ParserFacts.LoneOperand for the tiers.
- Parser.Statement: the contracts of some statement parsers (`window`,
  `app`, `class`, `try`) state the kind and names of the node built, not
  its body. The blocks of `while`, `if`, `for` and `func` are stated in
  full, and `ParserFacts.BlockForms` relates the two block forms.
- Runtime.RunStmt: its contract is the invariant every statement keeps.
  The meaning of each statement is stated per statement kind in
  `RuntimeFacts`.
- `set x.y = v` with a field target, `class` declarations, `func`
  declarations, and the property, connect, window and app statements run as
  the C++ does, but no lemma states them beyond `RunStmt`'s invariant.
- The REPL's screen output (echo, backspace sequences, the prompt) is not
  modelled. The Windows key codes (0/224 prefixes) are not modelled either;
  the model takes the POSIX ESC [ sequences.

## Findings

| source | as written | input that shows it | evidently intended | confidence | as-written member | corrected member |
|---|---|---|---|---|---|---|
| src/parser.cpp:603-610 | a bare `return` ends only before NEWLINE, DEDENT or EOF; before anything else a value is parsed | the token stream LBRACE RETURN RBRACE, as a block body: the parser reads the RBRACE as the start of a value and fails with "Unknown token: " (a lexed `}` has empty text, src/lexer.cpp:169). The lexer of src/lexer.cpp never makes a RETURN token, since `return` is not in its keyword table (src/lexer.cpp:6-13), so no source text reaches this through the shipped front end; the parser fails on any token stream that holds it | `}` also ends a bare `return`, so that a brace block holding only `return` parses like the indented block holding `return` | low: the defect is in the parser and stays latent behind the lexer; not executed | ParserFacts.ReturnBeforeBrace | ParserFacts.BareReturnForms |
