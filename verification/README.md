# Titanic script interpreter — a Dafny model

This project models the script engine of the Titanic script interpreter. That engine runs the small dialogue-and-event scripting language. It works in three stages:

- **Lexer.** Turns the lines of a script into tokens.
- **Parser.** A recursive-descent parser that builds statements from the tokens and never aborts on malformed input.
- **Interpreter.** A tree-walking interpreter that runs the statements over a chain of variable scopes. It has a table of declared functions and a fixed set of built-in functions.

Everything is a pure function over immutable data.

- **Lexer** (`Lexer`, helpers in `Text`). Takes the script as a sequence of lines and produces tokens.
  - Each line is cut at its first `//` and trimmed as Java's `trim` does.
  - The line is then scanned. `( ) , =` become SYMBOL tokens and quoted text becomes a STRING token.
  - Any other run of characters is a chunk. A chunk ends at whitespace, a parenthesis, a comma or a quote, but not at `=`. Chunks are classified as BOOLEAN, KEYWORD, NUMBER or IDENTIFIER, in the order `classifyToken` tests them.
  - A NEWLINE token follows every line that begins with `global` or `local`, and one EOF token ends the output.
- **Parser** (`Parser`).
  - Every parsing routine takes the token list and a cursor, and returns what it built together with the new cursor.
  - Termination rests on two facts: the cursor never passes the end of the list, and a statement parsed at a non-EOF position always consumes a token. The routines' contracts state both, and their `decreases` clauses rest on them.
  - A malformed statement is dropped, or its leading token is skipped.
- **Interpreter** (`Interpreter`, with `Values` and `Scope`).
  - Execution is a state transformer over four things:
    - the scope chain: the current frame first, the root last;
    - the root's function table;
    - a trace of observable events (built-in output, the unknown-function diagnostic, and the diagnostic printed for a missing expression);
    - the input lines that `puppetevent` reads.
  - Each run ends in one of four outcomes: `Normal`, `Exit`, `Crash` or `OutOfFuel`.
    - `Exit` is the `exitcode` statement's exception, which nothing inside the engine catches.
    - `Crash` is a Java run-time exception that would reach the driver. Examples are a built-in called without its argument, an unparsable number, and a `phase` that is not an integer.
    - `OutOfFuel` marks a run cut short by the fuel bound.
  - `FuelProps` proves that more fuel never changes an outcome that was already reached.
  - `AdvanceProps` proves what no run undoes: the number of frames, the declared functions, the trace so far, the input already read and the marker identities handed out.

Four behaviours of the code worth knowing:

- **`return` is inert.** `ReturnException` is never thrown, so every call of a declared function yields `null`.
- **A function's frame hangs off the root context**, not off the scope that declared the function.
- **Integer literals and `puppetevent` answers are 32-bit**, because they go through `Integer.parseInt`. `advancephase` wraps around at 2^31 - 1.
- **A decimal literal never reaches the interpreter.** The lexer only makes NUMBER tokens from digits.

Modules:
- `Wrappers`: `Option`.
- `Text`: Java's `trim`, `Character.isWhitespace`, ASCII case folding, digits, `indexOf("//")`.
- `Tokens`, `Lexer`, `LexerProps`.
- `Ast`, `Parser`, `ParserProps`.
- `Values`, `ValueProps`, `Scope`.
- `Interpreter`, `InterpreterProps`, `FuelProps`, `AdvanceProps`.

## Model

| member | source | states |
|---|---|---|
| Text.Trim | titanic-script-interpreter/src/main/java/com/titanicscriptinterpreter/project/engine/lexer/ScriptLexer.java:66-75 | The trimmed line is empty exactly when every character is at most U+0020; otherwise it starts and ends with a character above U+0020 |
| Text.CommentStart | titanic-script-interpreter/src/main/java/com/titanicscriptinterpreter/project/engine/lexer/ScriptLexer.java:62-65 | The index of the first `//`, with no `//` before it, or the line length when there is none |
| Lexer.DigitsAreNotWords | titanic-script-interpreter/src/main/java/com/titanicscriptinterpreter/project/engine/lexer/ScriptLexer.java:147-162 | An all-digit chunk is neither a boolean word nor a keyword in any case, so it reaches the NUMBER branch |
| Lexer.Classify | titanic-script-interpreter/src/main/java/com/titanicscriptinterpreter/project/engine/lexer/ScriptLexer.java:146-176 | A chunk becomes a token of its own line that is never UNKNOWN, EOF or NEWLINE; an IDENTIFIER or NUMBER keeps the chunk's text unchanged, and a chunk free of whitespace, parentheses, commas and quotes yields one of the scanner's token shapes |
| Lexer.ClassifyTable | titanic-script-interpreter/src/main/java/com/titanicscriptinterpreter/project/engine/lexer/ScriptLexer.java:146-176 | For a chunk the scanner can produce: BOOLEAN exactly for case-insensitive `true`/`false`, with lower-cased text; KEYWORD exactly for the exact-case keywords and the case variants of `switch`/`case`/`endswitch`, when not a boolean word; NUMBER exactly for all-digit text; IDENTIFIER exactly for everything else |
| Lexer.QuoteEnd | titanic-script-interpreter/src/main/java/com/titanicscriptinterpreter/project/engine/lexer/ScriptLexer.java:103-106 | The string loop stops at the first quote at or after its start, or at the end of the line |
| Lexer.ChunkEnd | titanic-script-interpreter/src/main/java/com/titanicscriptinterpreter/project/engine/lexer/ScriptLexer.java:126-132 | The chunk loop stops at the first whitespace, parenthesis, comma or quote, or at the end of the line |
| Lexer.ScanLineScanned | titanic-script-interpreter/src/main/java/com/titanicscriptinterpreter/project/engine/lexer/ScriptLexer.java:79-138 | Every token the scan makes has one of these shapes: a one-character SYMBOL from `( ) , =`; a STRING without a quote; BOOLEAN `true`/`false`; a KEYWORD from the keyword set; or a non-empty NUMBER/IDENTIFIER chunk free of whitespace, parentheses, commas and quotes |
| Lexer.ScanLineCount | titanic-script-interpreter/src/main/java/com/titanicscriptinterpreter/project/engine/lexer/ScriptLexer.java:79-138 | The scan of the rest of a line yields no token exactly when only whitespace is left, and never more tokens than characters left |
| Lexer.TokenizeLine | titanic-script-interpreter/src/main/java/com/titanicscriptinterpreter/project/engine/lexer/ScriptLexer.java:58-141 | The same token shapes, all on the given line; a line with no code before its comment yields nothing |
| Lexer.LexAll | titanic-script-interpreter/src/main/java/com/titanicscriptinterpreter/project/engine/lexer/ScriptLexer.java:29-53 | The output ends with an EOF token with empty text, numbered one past the last line |
| LexerProps.CommentIgnored | titanic-script-interpreter/src/main/java/com/titanicscriptinterpreter/project/engine/lexer/ScriptLexer.java:62-65 | Whatever follows the first `//` of a line has no effect on its tokens |
| LexerProps.BlankLineIsSilent | titanic-script-interpreter/src/main/java/com/titanicscriptinterpreter/project/engine/lexer/ScriptLexer.java:66-75 | A line of blanks and control characters yields no tokens |
| LexerProps.CommentLineIsSilent | titanic-script-interpreter/src/main/java/com/titanicscriptinterpreter/project/engine/lexer/ScriptLexer.java:62-75 | An indented comment line yields no tokens |
| LexerProps.StringStep | titanic-script-interpreter/src/main/java/com/titanicscriptinterpreter/project/engine/lexer/ScriptLexer.java:97-121 | A quoted string becomes one STRING token holding the characters strictly between the quotes; the scan resumes after the closing quote |
| LexerProps.UnterminatedString | titanic-script-interpreter/src/main/java/com/titanicscriptinterpreter/project/engine/lexer/ScriptLexer.java:103-118 | An unterminated string still yields one STRING token: the rest of the line after the quote, and nothing after it |
| LexerProps.QuoteEndIsFirstQuote | titanic-script-interpreter/src/main/java/com/titanicscriptinterpreter/project/engine/lexer/ScriptLexer.java:103-106 | Any position that is the first quote from the start (or the line end, when there is none) is where the string loop stops |
| LexerProps.ChunkStep | titanic-script-interpreter/src/main/java/com/titanicscriptinterpreter/project/engine/lexer/ScriptLexer.java:125-137 | A chunk is the maximal run up to whitespace, a parenthesis, a comma or a quote, and is classified as a whole |
| LexerProps.ChunkEndIsFirstStop | titanic-script-interpreter/src/main/java/com/titanicscriptinterpreter/project/engine/lexer/ScriptLexer.java:126-132 | Any position that is the first stop character from the start (or the line end) is where the chunk loop stops |
| LexerProps.EqualsInsideChunk | titanic-script-interpreter/src/main/java/com/titanicscriptinterpreter/project/engine/lexer/ScriptLexer.java:125-137 | Any line that is a single chunk containing `=`, not starting with a symbol character and free of comments, lexes as one IDENTIFIER holding the whole line, because `=` does not end a chunk and no word or number contains `=` |
| LexerProps.ScannedHasNoNewline | titanic-script-interpreter/src/main/java/com/titanicscriptinterpreter/project/engine/lexer/ScriptLexer.java:79-138 | Scanning a line never produces a NEWLINE token |
| LexerProps.NewlinePerDeclarationLine | titanic-script-interpreter/src/main/java/com/titanicscriptinterpreter/project/engine/lexer/ScriptLexer.java:37-45 | The number of NEWLINE tokens equals the number of lines whose first token text is `global` or `local` |
| LexerProps.LineOutputCarriesLine | titanic-script-interpreter/src/main/java/com/titanicscriptinterpreter/project/engine/lexer/ScriptLexer.java:31-45 | Every token produced for a line, its NEWLINE included, carries that line's number |
| LexerProps.LineOutputFacts | titanic-script-interpreter/src/main/java/com/titanicscriptinterpreter/project/engine/lexer/ScriptLexer.java:33-45 | A line's output holds no EOF, and a NEWLINE only as its last token, after at least one token, on a declaration line |
| LexerProps.LexFromInRange | titanic-script-interpreter/src/main/java/com/titanicscriptinterpreter/project/engine/lexer/ScriptLexer.java:31-48 | Tokens of 0-based lines k.. carry line numbers between k+1 and the line count, and none is EOF |
| LexerProps.LexFromSorted | titanic-script-interpreter/src/main/java/com/titanicscriptinterpreter/project/engine/lexer/ScriptLexer.java:31-48 | Line numbers never decrease along the output |
| LexerProps.LexFromNewlinesClose | titanic-script-interpreter/src/main/java/com/titanicscriptinterpreter/project/engine/lexer/ScriptLexer.java:34-45 | Each NEWLINE directly follows a token of its own line and is the last token of that line |
| LexerProps.LexFromNewlinesDeclare | titanic-script-interpreter/src/main/java/com/titanicscriptinterpreter/project/engine/lexer/ScriptLexer.java:37-45 | Each NEWLINE sits on a line whose first token text is `global` or `local` |
| LexerProps.LexAllShape | titanic-script-interpreter/src/main/java/com/titanicscriptinterpreter/project/engine/lexer/ScriptLexer.java:29-53 | The whole output has EOF only as its last token, non-decreasing line numbers, and NEWLINEs only closing declaration lines |
| Parser.Peek | titanic-script-interpreter/src/main/java/com/titanicscriptinterpreter/project/engine/lexer/Parser.java:594-600 | Past the list the current token is a synthetic EOF; otherwise it is the token under the cursor |
| Parser.Advance | titanic-script-interpreter/src/main/java/com/titanicscriptinterpreter/project/engine/lexer/Parser.java:605-610 | The cursor moves by exactly one, except at EOF where it stays put |
| Parser.LookAhead | titanic-script-interpreter/src/main/java/com/titanicscriptinterpreter/project/engine/lexer/Parser.java:662-668 | The next token, absent exactly when it lies past the list |
| Parser.ParseExpression | titanic-script-interpreter/src/main/java/com/titanicscriptinterpreter/project/engine/lexer/Parser.java:482-502 | IDENTIFIER followed by `(` gives a call of that name or nothing; a bare IDENTIFIER gives a variable; STRING/NUMBER/BOOLEAN give a literal of that kind and text. Each of these consumes its tokens. Any other token gives nothing and consumes nothing |
| Parser.ParseCallExpression | titanic-script-interpreter/src/main/java/com/titanicscriptinterpreter/project/engine/lexer/Parser.java:504-540 | A call expression is named by its identifier and is only built when its closing `)` was consumed; the cursor always advances |
| Parser.ParseCallArguments | titanic-script-interpreter/src/main/java/com/titanicscriptinterpreter/project/engine/lexer/Parser.java:515-533 | The argument loop keeps the cursor within the list and never moves it back |
| Parser.ParseCondition | titanic-script-interpreter/src/main/java/com/titanicscriptinterpreter/project/engine/lexer/Parser.java:419-443 | The operator is always `=`; a missing left side leaves the right side missing too; a missing side is kept as absent |
| Parser.Parse | titanic-script-interpreter/src/main/java/com/titanicscriptinterpreter/project/engine/lexer/Parser.java:32-44 | Parsing terminates on every token list, and every statement it returns has `=` conditions and non-empty `global` lists |
| Parser.ParseProgram | titanic-script-interpreter/src/main/java/com/titanicscriptinterpreter/project/engine/lexer/Parser.java:32-44 | The statement loop terminates from any cursor and keeps only well-formed statements |
| Parser.ParseStatement | titanic-script-interpreter/src/main/java/com/titanicscriptinterpreter/project/engine/lexer/Parser.java:49-99 | At a non-EOF position at least one token is consumed; at EOF nothing is built or consumed; the cursor never passes the list |
| Parser.ParseReturn | titanic-script-interpreter/src/main/java/com/titanicscriptinterpreter/project/engine/lexer/Parser.java:101-112 | `return` always builds a Return statement and consumes its keyword |
| Parser.ParseWhile | titanic-script-interpreter/src/main/java/com/titanicscriptinterpreter/project/engine/lexer/Parser.java:114-130 | A While is built only when `endwhile` was consumed; otherwise parsing ended at EOF |
| Parser.ParseAssignment | titanic-script-interpreter/src/main/java/com/titanicscriptinterpreter/project/engine/lexer/Parser.java:132-151 | An assignment is named by the leading identifier, and the cursor always moves past it |
| Parser.ParseFunctionDeclaration | titanic-script-interpreter/src/main/java/com/titanicscriptinterpreter/project/engine/lexer/Parser.java:160-183 | A declaration is built only when `endcode` was consumed; it fails at EOF or when no identifier follows `code` |
| Parser.ParseLocal | titanic-script-interpreter/src/main/java/com/titanicscriptinterpreter/project/engine/lexer/Parser.java:186-209 | `local` always builds a Local statement, even with no names |
| Parser.ParseNames | titanic-script-interpreter/src/main/java/com/titanicscriptinterpreter/project/engine/lexer/Parser.java:192-206 | The name loop consumes exactly the run of identifiers and commas, stops at the first other token, and collects the identifiers in order |
| Parser.ParseParameterListIfAny | titanic-script-interpreter/src/main/java/com/titanicscriptinterpreter/project/engine/lexer/Parser.java:211-248 | Without a `(` there are no parameters and nothing is consumed |
| Parser.ParseParameters | titanic-script-interpreter/src/main/java/com/titanicscriptinterpreter/project/engine/lexer/Parser.java:218-242 | The parameter loop keeps the cursor within the list and never moves it back |
| Parser.ParseGlobal | titanic-script-interpreter/src/main/java/com/titanicscriptinterpreter/project/engine/lexer/Parser.java:251-277 | A Global statement always names at least one variable |
| Parser.ParseCallStatement | titanic-script-interpreter/src/main/java/com/titanicscriptinterpreter/project/engine/lexer/Parser.java:279-312 | A call statement names the leading identifier and is built only when both `(` and `)` are present |
| Parser.ParseStatementArguments | titanic-script-interpreter/src/main/java/com/titanicscriptinterpreter/project/engine/lexer/Parser.java:291-303 | The argument loop keeps the cursor within the list and never moves it back |
| Parser.ParseIf | titanic-script-interpreter/src/main/java/com/titanicscriptinterpreter/project/engine/lexer/Parser.java:367-386 | An If is built only when `endif` was consumed; otherwise parsing ended at EOF |
| Parser.ParseElse | titanic-script-interpreter/src/main/java/com/titanicscriptinterpreter/project/engine/lexer/Parser.java:374-377 | Without an `else` keyword under the cursor there is no else part and nothing is consumed; otherwise the else block stops at EOF or before `endif` |
| Parser.ParseBlock | titanic-script-interpreter/src/main/java/com/titanicscriptinterpreter/project/engine/lexer/Parser.java:392-416 | A block stops at EOF or before a boundary keyword (any case), without consuming it |
| Parser.ParseSwitch | titanic-script-interpreter/src/main/java/com/titanicscriptinterpreter/project/engine/lexer/Parser.java:445-480 | A Switch is built only when `endswitch` was consumed; it fails at EOF or on a missing selector |
| Parser.ParseCases | titanic-script-interpreter/src/main/java/com/titanicscriptinterpreter/project/engine/lexer/Parser.java:455-472 | The case loop stops at EOF or at `endswitch` |
| Parser.ParseCaseBlock | titanic-script-interpreter/src/main/java/com/titanicscriptinterpreter/project/engine/lexer/Parser.java:542-569 | A case body stops at EOF or before the next `case` or `endswitch` |
| ParserProps.AssignmentOrCall | titanic-script-interpreter/src/main/java/com/titanicscriptinterpreter/project/engine/lexer/Parser.java:81-89 | A statement starting at an IDENTIFIER is an assignment when `=` follows it and a call statement otherwise, named by the identifier |
| ParserProps.SkippedToken | titanic-script-interpreter/src/main/java/com/titanicscriptinterpreter/project/engine/lexer/Parser.java:32-98 | A token that cannot start a statement (an unknown keyword, a NEWLINE, a stray symbol or literal) has no effect on the program: parsing from it equals parsing from the next token |
| ParserProps.AtomParsed | titanic-script-interpreter/src/main/java/com/titanicscriptinterpreter/project/engine/lexer/Parser.java:482-497 | A literal, or a name followed by `,` or `)`, parses as that literal or variable and consumes exactly one token |
| ParserProps.AtomsLength | titanic-script-interpreter/src/main/java/com/titanicscriptinterpreter/project/engine/lexer/Parser.java:515-533 | The reference reading of a comma list of n atoms holds n expressions |
| ParserProps.AtomsIndex | titanic-script-interpreter/src/main/java/com/titanicscriptinterpreter/project/engine/lexer/Parser.java:515-533 | The i-th expression of that reading is the atom at offset 2i of the list |
| ParserProps.CallArgumentsParsed | titanic-script-interpreter/src/main/java/com/titanicscriptinterpreter/project/engine/lexer/Parser.java:515-533 | The argument loop of a call expression returns a comma list of atoms whole and in order, and stops on its `)` |
| ParserProps.StatementArgumentsParsed | titanic-script-interpreter/src/main/java/com/titanicscriptinterpreter/project/engine/lexer/Parser.java:291-303 | The argument loop of a call statement returns a comma list of atoms whole and in order, and stops on its `)` |
| ParserProps.CallExpressionOfAtoms | titanic-script-interpreter/src/main/java/com/titanicscriptinterpreter/project/engine/lexer/Parser.java:504-540 | `name ( a1 , ... , an )` with atom arguments is one call expression of `name` on exactly those arguments, ending right after the `)` |
| ParserProps.CallStatementOfAtoms | titanic-script-interpreter/src/main/java/com/titanicscriptinterpreter/project/engine/lexer/Parser.java:279-312 | The same text at statement level is one call statement of `name` on exactly those arguments, ending right after the `)` |
| ParserProps.ElseNeedsKeyword | titanic-script-interpreter/src/main/java/com/titanicscriptinterpreter/project/engine/lexer/Parser.java:367-386 | An If has a non-empty else part only if an `else` keyword appeared inside it |
| ParserProps.GlobalVersusLocal | titanic-script-interpreter/src/main/java/com/titanicscriptinterpreter/project/engine/lexer/Parser.java:251-277 | `global` and `local` read the same names and stop at the same token. `global` yields nothing exactly when no identifier was read, while `local` then yields an empty list |
| ParserProps.CasesSkipJunk | titanic-script-interpreter/src/main/java/com/titanicscriptinterpreter/project/engine/lexer/Parser.java:455-472 | Tokens between cases that are not `case`, `endswitch` or EOF are skipped without effect |
| ParserProps.AssignmentOfLiteral | titanic-script-interpreter/src/main/java/com/titanicscriptinterpreter/project/engine/lexer/Parser.java:132-151 | An identifier, `=` and a STRING, NUMBER or BOOLEAN token parse to one assignment of that literal, consuming the three tokens |
| ParserProps.EmptyDeclarations | titanic-script-interpreter/src/main/java/com/titanicscriptinterpreter/project/engine/lexer/Parser.java:186-277 | `global` followed by neither an identifier nor a comma builds nothing; `local` in the same position builds an empty Local; both consume only the keyword |
| ParserProps.UnclosedIfDropped | titanic-script-interpreter/src/main/java/com/titanicscriptinterpreter/project/engine/lexer/Parser.java:367-386 | An `if` whose then block runs into EOF is dropped, and with it the rest of the program |
| Values.Wrap32 | titanic-script-interpreter/src/main/java/com/titanicscriptinterpreter/project/engine/interpreter/Interpreter.java:222-225 | 32-bit wrap-around: the result is a 32-bit value congruent to the input, and equal to it when it is in range |
| Values.Equals | titanic-script-interpreter/src/main/java/com/titanicscriptinterpreter/project/engine/interpreter/Interpreter.java:356-364 | `equalsOperator` is exactly value identity: `null` equals only `null`, and values of different types are never equal |
| Values.ParseInt32 | titanic-script-interpreter/src/main/java/com/titanicscriptinterpreter/project/engine/interpreter/Interpreter.java:307 | A successful parse is of a non-empty text and lies in the 32-bit range, and is negative only after a minus sign; on a run of digits it yields their value when that is at most 2^31 - 1 and fails otherwise |
| Values.Truthy | titanic-script-interpreter/src/main/java/com/titanicscriptinterpreter/project/engine/interpreter/Interpreter.java:385-394 | Exactly `null`, `false` and the integer 0 are false; every other value, strings and no-value markers included, is true |
| ValueProps.ParseDecimal | titanic-script-interpreter/src/main/java/com/titanicscriptinterpreter/project/engine/interpreter/Interpreter.java:307 | The decimal digits of any n parse back to n when n is at most 2^31 - 1, and fail to parse when it is larger |
| ValueProps.ParseNegativeDecimal | titanic-script-interpreter/src/main/java/com/titanicscriptinterpreter/project/engine/interpreter/Interpreter.java:307 | A minus sign followed by the digits of n parses to -n when n is at most 2^31, and fails otherwise |
| ValueProps.ParseRejectsNonDigits | titanic-script-interpreter/src/main/java/com/titanicscriptinterpreter/project/engine/interpreter/Interpreter.java:307 | A non-digit after the first character makes the parse fail |
| ValueProps.IncrementWraps | titanic-script-interpreter/src/main/java/com/titanicscriptinterpreter/project/engine/interpreter/Interpreter.java:223-224 | `currentPhase++` adds one, except at 2^31 - 1, which wraps to -2^31 |
| ValueProps.EqualityRules | titanic-script-interpreter/src/main/java/com/titanicscriptinterpreter/project/engine/interpreter/Interpreter.java:356-364 | Equality is reflexive and symmetric; `null` equals only `null`; integer 1 differs from string "1" |
| Scope.GetVariable | titanic-script-interpreter/src/main/java/com/titanicscriptinterpreter/project/engine/interpreter/ScriptContext.java:35-43 | Lookup returns the binding of the nearest frame that binds the name, and `null` when no frame does |
| Scope.HasVariableDecidesLookup | titanic-script-interpreter/src/main/java/com/titanicscriptinterpreter/project/engine/interpreter/ScriptContext.java:45-51 | A binding in the current frame is the one lookup finds; without one, lookup continues in the parent frames |
| Scope.SetVariable | titanic-script-interpreter/src/main/java/com/titanicscriptinterpreter/project/engine/interpreter/ScriptContext.java:28-30 | After binding, the name reads back the new value, every other name reads as before, and the parent frames are unchanged |
| Scope.SetRootVariable | titanic-script-interpreter/src/main/java/com/titanicscriptinterpreter/project/engine/interpreter/ScriptContext.java:64-70 | Binding through `getRootContext` changes only the root frame |
| Scope.RegisterFunction | titanic-script-interpreter/src/main/java/com/titanicscriptinterpreter/project/engine/interpreter/ScriptContext.java:20-22 | A later declaration replaces an earlier one of the same name and leaves the others alone |
| Scope.GetFunction | titanic-script-interpreter/src/main/java/com/titanicscriptinterpreter/project/engine/interpreter/ScriptContext.java:24-26 | The latest declaration, absent exactly when the name was never declared |
| Scope.NilBindingShadows | titanic-script-interpreter/src/main/java/com/titanicscriptinterpreter/project/engine/interpreter/ScriptContext.java:36-38 | A name bound to `null` in the current frame hides a parent's binding |
| Scope.FunctionFrameSees | titanic-script-interpreter/src/main/java/com/titanicscriptinterpreter/project/engine/interpreter/Interpreter.java:240-242 | A function frame sees its own bindings, then the root's, and nothing else |
| Interpreter.EvalLiteral | titanic-script-interpreter/src/main/java/com/titanicscriptinterpreter/project/engine/interpreter/Interpreter.java:300-315 | A literal either evaluates or crashes. A NUMBER evaluates exactly when it has no `.` and `Integer.parseInt` accepts it, and its value is the parsed 32-bit integer. A STRING yields its text. A BOOLEAN is true exactly when its text is `true` in any letter case. Any other category yields `null` |
| Interpreter.EvalArgs | titanic-script-interpreter/src/main/java/com/titanicscriptinterpreter/project/engine/interpreter/Interpreter.java:322-332 | Arguments that all evaluate give one value per argument |
| Interpreter.EvalOperand | titanic-script-interpreter/src/main/java/com/titanicscriptinterpreter/project/engine/interpreter/Interpreter.java:264-279 | A missing side of a condition evaluates to `null`, and the "Unknown expression type: null" diagnostic is appended to the trace |
| Interpreter.EvalCondition | titanic-script-interpreter/src/main/java/com/titanicscriptinterpreter/project/engine/interpreter/Interpreter.java:282-297 | A condition that evaluates yields a boolean. With `=` it is whether the left side's value, evaluated first, equals the right side's; with `!=` it is the negation; with an operator other than `=`, `!=` or `>` it is false |
| Interpreter.BindParameters | titanic-script-interpreter/src/main/java/com/titanicscriptinterpreter/project/engine/interpreter/Interpreter.java:245-250 | The function frame binds exactly the parameter names |
| Interpreter.BindParametersPositional | titanic-script-interpreter/src/main/java/com/titanicscriptinterpreter/project/engine/interpreter/Interpreter.java:245-250 | Each parameter (the last of a repeated name) holds the argument at its position, or `null` when too few were passed; extra arguments are ignored |
| Interpreter.ExecuteFunction | titanic-script-interpreter/src/main/java/com/titanicscriptinterpreter/project/engine/interpreter/Interpreter.java:238-262 | A call of a declared function yields `null` and gives the caller back its own frames untouched |
| Interpreter.Fresh | titanic-script-interpreter/src/main/java/com/titanicscriptinterpreter/project/engine/interpreter/Interpreter.java:232 | Each `EmptyFunctionResult` carries the next unused identity; the counter moves past it and nothing else in the state changes |
| Interpreter.CallBuiltin | titanic-script-interpreter/src/main/java/com/titanicscriptinterpreter/project/engine/interpreter/Interpreter.java:191-232 | No built-in changes the function table |
| Interpreter.DeclareGlobals | titanic-script-interpreter/src/main/java/com/titanicscriptinterpreter/project/engine/interpreter/Interpreter.java:128-136 | `global` adds exactly the listed names to the root, bound to `null`; it keeps existing root values and leaves the other frames alone |
| Interpreter.DeclareLocals | titanic-script-interpreter/src/main/java/com/titanicscriptinterpreter/project/engine/interpreter/Interpreter.java:138-144 | `local` adds exactly the listed names to the current frame, bound to 0; it keeps existing values and leaves the parent frames alone |
| Interpreter.AssignVariable | titanic-script-interpreter/src/main/java/com/titanicscriptinterpreter/project/engine/interpreter/Interpreter.java:121-125 | A name the root binds is rebound in the root, any other name in the current frame; every other frame is unchanged and no frame is added or removed |
| InterpreterProps.ExecListAppend | titanic-script-interpreter/src/main/java/com/titanicscriptinterpreter/project/engine/interpreter/Interpreter.java:39-43 | Running two lists in sequence is running the first, then the second only if the first ended normally |
| InterpreterProps.SignalAbandonsRest | titanic-script-interpreter/src/main/java/com/titanicscriptinterpreter/project/engine/interpreter/Interpreter.java:39-43 | After an `Exit`, a crash or exhaustion, nothing further in the list runs |
| InterpreterProps.ExitCodeStops | titanic-script-interpreter/src/main/java/com/titanicscriptinterpreter/project/engine/interpreter/Interpreter.java:111-113 | `exitcode` ends the list at once with `Exit`, state unchanged |
| InterpreterProps.IfIgnoresOtherBranch | titanic-script-interpreter/src/main/java/com/titanicscriptinterpreter/project/engine/interpreter/Interpreter.java:156-164 | Exactly one branch runs: the branch not taken has no influence on the outcome |
| InterpreterProps.WhileFalseSkips | titanic-script-interpreter/src/main/java/com/titanicscriptinterpreter/project/engine/interpreter/Interpreter.java:81-96 | A `while` whose condition is false at the start runs its body zero times |
| InterpreterProps.EmptyLoopDiverges | titanic-script-interpreter/src/main/java/com/titanicscriptinterpreter/project/engine/interpreter/Interpreter.java:81-96 | `while true = true` with an empty body never finishes: the condition is re-evaluated before every iteration |
| InterpreterProps.SwitchFirstMatch | titanic-script-interpreter/src/main/java/com/titanicscriptinterpreter/project/engine/interpreter/Interpreter.java:98-109 | With literal case values, the first case equal to the selector runs its body, and nothing else runs |
| InterpreterProps.SwitchNoMatch | titanic-script-interpreter/src/main/java/com/titanicscriptinterpreter/project/engine/interpreter/Interpreter.java:98-109 | With literal case values and none equal to the selector, the switch changes nothing |
| InterpreterProps.LookupIgnoresOtherRootNames | titanic-script-interpreter/src/main/java/com/titanicscriptinterpreter/project/engine/interpreter/ScriptContext.java:35-43 | Lookup of a name only depends on the frames' bindings of that name |
| InterpreterProps.RootWrite | titanic-script-interpreter/src/main/java/com/titanicscriptinterpreter/project/engine/interpreter/ScriptContext.java:28-43 | Binding in the root changes no other name, and reads back unless a nearer frame binds the name |
| InterpreterProps.AssignmentReadsBack | titanic-script-interpreter/src/main/java/com/titanicscriptinterpreter/project/engine/interpreter/Interpreter.java:115-126 | After an assignment the name reads back its new value and every other name is unchanged, unless the name is a shadowed global |
| InterpreterProps.AssignmentToShadowedGlobal | titanic-script-interpreter/src/main/java/com/titanicscriptinterpreter/project/engine/interpreter/Interpreter.java:121-125 | Assigning to a global from a frame that binds the same name writes the root, and the frame's own value still reads back |
| InterpreterProps.GlobalIdempotent | titanic-script-interpreter/src/main/java/com/titanicscriptinterpreter/project/engine/interpreter/Interpreter.java:128-136 | `global` twice is `global` once |
| InterpreterProps.LocalIdempotent | titanic-script-interpreter/src/main/java/com/titanicscriptinterpreter/project/engine/interpreter/Interpreter.java:138-144 | `local` twice is `local` once |
| InterpreterProps.GlobalKeepsValue | titanic-script-interpreter/src/main/java/com/titanicscriptinterpreter/project/engine/interpreter/Interpreter.java:128-136 | `global` never resets a global that is already bound |
| InterpreterProps.DeclaredFunctionShadowsBuiltin | titanic-script-interpreter/src/main/java/com/titanicscriptinterpreter/project/engine/interpreter/Interpreter.java:184-189 | A declared function is found before any built-in of the same name: with an empty body, the call changes nothing and yields `null` |
| InterpreterProps.CallerFramesInvisible | titanic-script-interpreter/src/main/java/com/titanicscriptinterpreter/project/engine/interpreter/Interpreter.java:238-254 | A call's outcome and its effect on the root, the trace and the input do not depend on the caller's own frames |
| InterpreterProps.UnknownFunctionCall | titanic-script-interpreter/src/main/java/com/titanicscriptinterpreter/project/engine/interpreter/Interpreter.java:227-232 | An unknown name logs one diagnostic and yields a fresh no-value marker; variables, functions and input are unchanged |
| InterpreterProps.NoValueIsFresh | titanic-script-interpreter/src/main/java/com/titanicscriptinterpreter/project/engine/interpreter/Interpreter.java:232 | Every no-value marker a built-in returns differs from all earlier ones |
| InterpreterProps.AdvancePhaseIncrements | titanic-script-interpreter/src/main/java/com/titanicscriptinterpreter/project/engine/interpreter/Interpreter.java:222-225 | `advancephase` adds one to the root's `phase`, wrapping at 2^31 - 1, and prints nothing |
| InterpreterProps.AdvancePhaseNeedsNumber | titanic-script-interpreter/src/main/java/com/titanicscriptinterpreter/project/engine/interpreter/Interpreter.java:223 | `advancephase` fails when `phase` is unbound or not an integer |
| InterpreterProps.ExitPropagatesThroughCall | titanic-script-interpreter/src/main/java/com/titanicscriptinterpreter/project/engine/interpreter/Interpreter.java:253-258 | `exitcode` inside a called function also stops the caller: the call does not catch it |
| InterpreterProps.NumberLiteralOfDecimal | titanic-script-interpreter/src/main/java/com/titanicscriptinterpreter/project/engine/interpreter/Interpreter.java:302-308 | A NUMBER literal spelling n evaluates to n when n is at most 2^31 - 1, and crashes with a number-format failure when it is larger |
| InterpreterProps.BooleanLiteralValue | titanic-script-interpreter/src/main/java/com/titanicscriptinterpreter/project/engine/interpreter/Interpreter.java:311-312 | A BOOLEAN literal as the lexer emits it evaluates to true exactly when it spells `true` |
| InterpreterProps.NotEqualsNegates | titanic-script-interpreter/src/main/java/com/titanicscriptinterpreter/project/engine/interpreter/Interpreter.java:287-291 | `!=` fails exactly when `=` fails on the same sides, leaves the same state, and otherwise yields the negated boolean |
| InterpreterProps.EqualsOfVariables | titanic-script-interpreter/src/main/java/com/titanicscriptinterpreter/project/engine/interpreter/Interpreter.java:283-289 | Comparing two variables with `=` yields whether they hold the same value, two unbound names included, and changes nothing |
| InterpreterProps.EqualsOfLiterals | titanic-script-interpreter/src/main/java/com/titanicscriptinterpreter/project/engine/interpreter/Interpreter.java:283-289 | Comparing two literals with `=` yields whether their values are equal, and changes nothing |
| InterpreterProps.MissingSidesAreEqual | titanic-script-interpreter/src/main/java/com/titanicscriptinterpreter/project/engine/interpreter/Interpreter.java:264-289 | A condition with both sides missing compares `null` with `null`, which is true, and reports the two missing sides |
| InterpreterProps.PuppetEventReads | titanic-script-interpreter/src/main/java/com/titanicscriptinterpreter/project/engine/interpreter/Interpreter.java:204-209 | `puppetevent` prints its prompt and reads exactly one line. It crashes when there is none. Otherwise it yields the line's 32-bit value, or crashes when the line is not one. Variables, functions and markers are untouched |
| InterpreterProps.PuppetEventDecimal | titanic-script-interpreter/src/main/java/com/titanicscriptinterpreter/project/engine/interpreter/Interpreter.java:204-209 | An answer line spelling n, for n at most 2^31 - 1, is read as n, and the next line becomes the first one left |
| FuelProps.EvalMonotone | titanic-script-interpreter/src/main/java/com/titanicscriptinterpreter/project/engine/interpreter/Interpreter.java:264-279 | An expression that finishes with some fuel gives the same result with more |
| FuelProps.EvalArgsMonotone | titanic-script-interpreter/src/main/java/com/titanicscriptinterpreter/project/engine/interpreter/Interpreter.java:322-332 | The same, for argument lists |
| FuelProps.EvalOperandMonotone | titanic-script-interpreter/src/main/java/com/titanicscriptinterpreter/project/engine/interpreter/Interpreter.java:282-284 | The same, for a side of a condition |
| FuelProps.EvalConditionMonotone | titanic-script-interpreter/src/main/java/com/titanicscriptinterpreter/project/engine/interpreter/Interpreter.java:282-297 | The same, for conditions |
| FuelProps.CallFunctionMonotone | titanic-script-interpreter/src/main/java/com/titanicscriptinterpreter/project/engine/interpreter/Interpreter.java:184-233 | The same, for calls |
| FuelProps.ExecuteFunctionMonotone | titanic-script-interpreter/src/main/java/com/titanicscriptinterpreter/project/engine/interpreter/Interpreter.java:238-262 | The same, for declared functions |
| FuelProps.ExecListMonotone | titanic-script-interpreter/src/main/java/com/titanicscriptinterpreter/project/engine/interpreter/Interpreter.java:39-43 | The same, for statement lists |
| FuelProps.ExecStmtMonotone | titanic-script-interpreter/src/main/java/com/titanicscriptinterpreter/project/engine/interpreter/Interpreter.java:48-72 | The same, for statements |
| FuelProps.ExecWhileMonotone | titanic-script-interpreter/src/main/java/com/titanicscriptinterpreter/project/engine/interpreter/Interpreter.java:81-96 | The same, for loops |
| FuelProps.ExecCasesMonotone | titanic-script-interpreter/src/main/java/com/titanicscriptinterpreter/project/engine/interpreter/Interpreter.java:98-109 | The same, for the case loop of a switch |
| AdvanceProps.EvalAdvances | titanic-script-interpreter/src/main/java/com/titanicscriptinterpreter/project/engine/interpreter/Interpreter.java:264-279 | Evaluating an expression keeps the number of frames, keeps every declared function, only appends to the trace, only consumes input from the front, and never reuses a marker identity |
| AdvanceProps.EvalArgsAdvances | titanic-script-interpreter/src/main/java/com/titanicscriptinterpreter/project/engine/interpreter/Interpreter.java:322-332 | The same holds for evaluating an argument list |
| AdvanceProps.EvalOperandAdvances | titanic-script-interpreter/src/main/java/com/titanicscriptinterpreter/project/engine/interpreter/Interpreter.java:282-284 | The same holds for a side of a condition, a missing one included |
| AdvanceProps.EvalConditionAdvances | titanic-script-interpreter/src/main/java/com/titanicscriptinterpreter/project/engine/interpreter/Interpreter.java:282-297 | The same holds for evaluating a condition |
| AdvanceProps.CallFunctionAdvances | titanic-script-interpreter/src/main/java/com/titanicscriptinterpreter/project/engine/interpreter/Interpreter.java:184-233 | The same holds for a call of a declared function, a built-in or an unknown name |
| AdvanceProps.ExecuteFunctionAdvances | titanic-script-interpreter/src/main/java/com/titanicscriptinterpreter/project/engine/interpreter/Interpreter.java:238-262 | The same holds for running a declared function's body in its own frame |
| AdvanceProps.CallBuiltinAdvances | titanic-script-interpreter/src/main/java/com/titanicscriptinterpreter/project/engine/interpreter/Interpreter.java:191-232 | The same holds for every built-in: `puppetevent` consumes one line from the front, and `advancephase` writes the root only |
| AdvanceProps.ExecListAdvances | titanic-script-interpreter/src/main/java/com/titanicscriptinterpreter/project/engine/interpreter/Interpreter.java:39-43 | The same holds for running a statement list |
| AdvanceProps.ExecStmtAdvances | titanic-script-interpreter/src/main/java/com/titanicscriptinterpreter/project/engine/interpreter/Interpreter.java:48-76 | The same holds for every kind of statement, including `function` declarations, which only add to the table |
| AdvanceProps.CallStmtAdvances | titanic-script-interpreter/src/main/java/com/titanicscriptinterpreter/project/engine/interpreter/Interpreter.java:166-177 | The same holds for a call statement |
| AdvanceProps.IfAdvances | titanic-script-interpreter/src/main/java/com/titanicscriptinterpreter/project/engine/interpreter/Interpreter.java:156-164 | The same holds for an `if`, whichever branch runs |
| AdvanceProps.ExecWhileAdvances | titanic-script-interpreter/src/main/java/com/titanicscriptinterpreter/project/engine/interpreter/Interpreter.java:81-96 | The same holds for a `while`, over any number of iterations |
| AdvanceProps.WhileRoundAdvances | titanic-script-interpreter/src/main/java/com/titanicscriptinterpreter/project/engine/interpreter/Interpreter.java:92-94 | One round of a loop after a true condition, its body and then the rest of the loop, never undoes any of those facts either |
| AdvanceProps.ExecCasesAdvances | titanic-script-interpreter/src/main/java/com/titanicscriptinterpreter/project/engine/interpreter/Interpreter.java:98-109 | The same holds for the case loop of a `switch` |

## Left out

- The script is given as its lines. Reading the file, the console driver and its command loop are not part of this model. So are the `Cli` output formatting, the "Registered function" message and the error-stream diagnostics of the lexer and parser. Built-in output is recorded as an event in a trace; an unknown function and a missing expression are recorded as diagnostic events.
- `puppetevent` reads the next line of a given input sequence instead of the console. Its prompt is recorded as the built-in's event.
- Floating point is not modelled. The lexer never makes a NUMBER containing `.`, so the `Double` branch of literal evaluation is unreachable; the model treats such a literal as a failure. `compareGreater` is modelled on integers only.
- The `<` and `&` operators and `BinaryOpExpression` are not modelled: the parser never builds them, and every condition it builds uses `=`.
- `parseParameterList` and `parseParameters` (Parser.java:317-364) are never called and are not modelled. `Value.java`, `ReturnException` and the unused `creationContext` of a declaration are not modelled either.
- The `Token`, `EmptyFunctionResult` and `ExitCodeStatement` classes are not part of this model. An `EmptyFunctionResult` is modelled as a marker with an identity, equal only to itself.
- Case folding (`equalsIgnoreCase`, `toLowerCase`) is modelled for ASCII letters only.
- `Integer.parseInt` accepts Unicode digits outside ASCII; the model accepts ASCII digits only.
- Two branches of `classifyToken` cannot be reached from `tokenizeLine`: a chunk that is `(` or `)`, and a quoted chunk. They are written out but never taken.
- The initial globals of the console driver (`mission`, `phase`, `pennybrush`) are not built in; a state with any root frame can be given.
- Every run takes a fuel bound, and a run that needs more ends in `OutOfFuel`. `FuelProps` shows that fuel never changes a finished run's outcome, so the bound only decides how much of a non-terminating script is observed.
- Parser.ParseCallArguments: its contract only bounds the cursor. `ParserProps.CallArgumentsParsed` states what it returns for a comma list of literals and variables. Lists with nested calls, and the skipping of an argument that fails to parse, are stated by its definition alone.
- Parser.ParseStatementArguments: its contract only bounds the cursor. `ParserProps.StatementArgumentsParsed` states what it returns for a comma list of literals and variables. Lists with nested calls, and the end of the list at an argument that fails to parse, are stated by its definition alone.
- Parser.ParseParameters: its contract only bounds the cursor. That a non-identifier is not consumed is stated by its definition alone.
- Parser.ParseCases: the order of case blocks is kept by construction (each block is put before the ones after it), with no separate lemma.
- Interpreter.EvalArgs: the left-to-right order of evaluation is stated by its definition, not by a separate lemma.
- Interpreter.CallBuiltin: its contract states only that the function table is untouched. The effects of `puppetevent`, of `advancephase` and of an unknown name are proved in `InterpreterProps`. The output events of the other built-ins are stated by the definition alone.
- Lexer.ScanLine and Scope.HasVariable carry no `ensures` of their own. What the scan yields is stated by `Lexer.ScanLineCount` and `Lexer.ScanLineScanned`, and what `hasVariable` decides by `Scope.HasVariableDecidesLookup`.
- Interpreter.Eval, Interpreter.CallFunction, Interpreter.ExecList, Interpreter.ExecStmt, Interpreter.ExecWhile and Interpreter.ExecCases carry no `ensures` of their own. What they preserve is proved one lemma per routine in `AdvanceProps`, their independence from the fuel bound in `FuelProps`, and what they compute in `InterpreterProps`.
- InterpreterProps.SwitchFirstMatch and InterpreterProps.SwitchNoMatch assume literal case values, which have no side effects. With calls as case values the evaluations of earlier cases also take effect.
