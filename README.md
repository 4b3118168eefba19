# curry: a verified model of the interpreter core

curry is a tree-walking interpreter for a small prefix-call scripting
language. It has four stages:

- A tokenizer splits the source into punctuation, words, strings and an end-of-file token.
- A recursive-descent parser builds blocks of expressions.
- An evaluator runs the blocks against a stack of scope frames.
- A primitive dispatcher implements the built-in functions.

This Dafny project models those four stages and proves what each promises.

| file | module | models |
|---|---|---|
| `encoding.dfy` | `Encoding` | tokens, syntax tree, runtime values, exceptions, frames, the flavour-name table |
| `primitives.dfy` | `Primitives` | `expect_args` and `system_functions`; its scan, append and equality loops are methods |
| `primitive_properties.dfy` | `PrimitiveProperties` | lemmas about the built-ins |
| `tokenizer.dfy` | `Tokenizer` | `build_line_key`, `next_token`, `tokenize`, `get_lnum`/`get_line` |
| `parser.dfy` | `Parser` | `get_token` and the six parse productions |
| `parser_properties.dfy` | `ParserProperties` | lemmas about the parser, including a parse-after-print round trip |
| `evaluator.dfy` | `Evaluator` | the `evaluate` methods of lists, calls, definitions, expressions and blocks, as reference functions and as methods on the stack proved to compute them |
| `evaluator_properties.dfy` | `EvaluatorProperties` | lemmas about evaluation: item order, calls, the comma, parameters, built-ins, block exits |

How the model treats the parts the source leaves to the host:

- **Floats.** An `f64` is kept as its 64-bit pattern (`F64 = bv64`). Float arithmetic, comparison, int/float conversion, float parsing and the text the `string` primitive produces are the function fields of a `Host` value, passed in as a parameter.
- **Parse errors.** A parse error (`parse_error`, which prints and exits) is a `Fail(lnum, line, msg)` result.
- **Rust panics.** The model does not give panics a behaviour. A panic of a built-in (i64 overflow in `+ - * / %` or in the `start + len` of `substr`, and a zero divisor) is the predicate `Primitives.Panics`. It is a precondition of `Dispatch`; in the evaluator it is the halt `Stuck(Panic)`.
- **Non-termination.** A user program may recurse forever, so evaluation carries fuel. A user function's block (reached by a call or by the comma) runs with one unit less than the call, and every expression of the block gets that same amount, so fuel bounds the depth of nested calls, not their number. A call made with no fuel left is `Stuck(OutOfFuel)`.
- **Interpreter faults.** The module that builds the interpreter's own faults (`evaluator::exception`) is not part of this model. `Encoding.Fault(flavor, msg)` builds an exception of that flavour, with the message as payload and an empty stack. Properties speak only of the flavour.

Evaluation is defined twice. The functions `Evaluator.Evaluate`, `EvaluateItems`, `EvaluateCall`, `EvaluateComma`, `Invocation`, `EvaluateBlock` and `BlockFrom` are a reference semantics: each maps a stack and an expression (or items, or a block) to an `Outcome`, the run's result together with the stack it leaves. The methods of `Evaluator.Interpreter` change the stack in place, as the source does, and each is proved to compute the matching function. The lemmas in `EvaluatorProperties` state what evaluation promises in terms of those functions.

Two behaviours of the code are easy to misread, and the model keeps both:

- **Frames leak on exception exits.** `Block::evaluate` returns before `scope.pop()` on the `Return` exit and on the other-exception exit (src/encoding_impl.rs:172, :176, :184). `EvaluatorProperties.BlockNormalExit` states that a normal exit removes the top frame of the stack the expressions left. `EvaluatorProperties.BlockExceptionExit` states that an exception exit removes nothing.
- **Lookup comes first.** A call looks up its binding before its arguments are evaluated. `EvaluatorProperties.UserCallRunsBody` names the body found in the stack as it was before the arguments ran, even when an argument rebinds the id.

## Model

| member | source | states |
|---|---|---|
| `Encoding.FlavorNameInjective` | src/encoding_display.rs:290-301 | distinct exception flavours have distinct display names, so `catch` output identifies the flavour |
| `Primitives.ExpectArgs` | src/primitives.rs:10-21 | `expect_args` gives a fault exactly when the count differs, and that fault is an `ArgError` |
| `Primitives.FirstException` | src/primitives.rs:24-33 | no result iff no argument is an exception; otherwise the result is the leftmost exception argument |
| `Primitives.FindException` | src/primitives.rs:24-33 | the poisoning scan loop returns the leftmost exception argument (as `FirstException`) |
| `Primitives.AppendItems` | src/primitives.rs:130-140 | the push loops of list `+` give the first list's items followed by the second's |
| `Primitives.Equals` | src/primitives.rs:389-411 | the element-wise loop of list `=`, with its early exit on the first unequal pair, computes structural equality |
| `Primitives.NamedName` | src/primitives.rs:34-646 | every primitive is found under the name its `match` arm spells |
| `Primitives.NameOfNamed` | src/primitives.rs:34-646 | a name that is found is exactly the found primitive's name, so no other string reaches an arm |
| `Primitives.SystemFunctions` | src/primitives.rs:23-648 | `system_functions` (poisoning scan, append and equality loops) computes `Dispatch` on every non-panicking input |
| `Primitives.AsUsize` | src/primitives.rs:533-539 | the `as usize` cast lands in [0, 2^64) and is the identity on that range |
| `Primitives.ParseI64` | src/tokenizer.rs:79-80 | `parse::<i64>` succeeds only on a sign-or-digit-led word, with a value in the i64 range |
| `Primitives.ParseIntToString` | src/primitives.rs:42-44 | parsing the decimal form of any i64 gives it back |
| `Primitives.TruncatingDivision` | src/primitives.rs:206-252 | i64 `/` and `%` truncate: x = y*q + r, abs(r) < abs(y), r takes x's sign, abs(q)*abs(y) <= abs(x) |
| `Primitives.ExceptionToList` | src/encoding_impl.rs:245-255 | `to_list` is [flavour name, payload, list of stack entries as strings] |
| `PrimitiveProperties.PoisoningComesFirst` | src/primitives.rs:24-33 | for every name but `?` and `catch`, the leftmost exception argument is the result, before arity or name checks |
| `PrimitiveProperties.WrongArityIsArgError` | src/primitives.rs:10-21 | a known name with the wrong argument count gives an `ArgError` |
| `PrimitiveProperties.UnknownNameIsUndefError` | src/primitives.rs:645-646 | an unknown name gives an `UndefError` |
| `PrimitiveProperties.IntegerArithmetic` | src/primitives.rs:98-252 | `+ - * / %` on two i64 integers give the exact sum, difference and product, the truncated quotient and the remainder with the dividend's sign, all within i64 |
| `PrimitiveProperties.IntegerOperands` | src/primitives.rs:98-252 | each of the five integer operators on two integers that do not panic computes its i64 operation, with a non-zero divisor for `/` and `%` |
| `PrimitiveProperties.QuotientFits` | src/primitives.rs:212-216 | the truncated quotient fits in i64 except for MIN / -1 |
| `PrimitiveProperties.ModuloNeedsIntegers` | src/primitives.rs:234-252 | `%` on anything but two integers is a `TypeError` |
| `PrimitiveProperties.PlusConcatenates` | src/primitives.rs:119-147 | `+` concatenates strings, and concatenates lists with the first list's items first and lengths adding up |
| `PrimitiveProperties.PlusTypeErrors` | src/primitives.rs:98-151 | `+` blames a bad second operand with `TypeMismatch` and a bad first operand with `TypeError` |
| `PrimitiveProperties.ArithmeticTypeErrors` | src/primitives.rs:152-233 | `-`, `*`, `/` give `TypeError` for every non-numeric operand |
| `PrimitiveProperties.BooleanOperators` | src/primitives.rs:254-320 | `!`, `&`, `\|` are negation, conjunction and disjunction on booleans, and `TypeError` otherwise |
| `PrimitiveProperties.Comparisons` | src/primitives.rs:419-521 | `>` and `<` on integers compare exactly; a non-number is a `TypeError` |
| `PrimitiveProperties.IntParsesDecimal` | src/primitives.rs:36-54 | `int` reads back the decimal form of any i64; an unparsable string is a `ParseError` |
| `PrimitiveProperties.PrintAnswersFalse` | src/primitives.rs:81-96 | `>>` answers False for a string and `TypeError` for anything else |
| `PrimitiveProperties.EqualViaDispatch` | src/primitives.rs:395-399 | the recursive `system_functions("=")` call for list items answers True exactly when the items are structurally equal |
| `PrimitiveProperties.EqualityNeverRaises` | src/primitives.rs:336-418 | `=` on non-exceptions is always True or False, and True only for the same variant |
| `PrimitiveProperties.ListEquality` | src/primitives.rs:389-411 | two lists are `=` iff they have the same length and their items are pairwise `=` |
| `PrimitiveProperties.ListWithExceptionIsUnequal` | src/primitives.rs:395-407 | a list holding an exception is never equal to anything |
| `PrimitiveProperties.EqualityAcrossVariants` | src/primitives.rs:353-418 | an integer never equals a float, and a function never equals anything |
| `PrimitiveProperties.EqualSymmetric` | src/primitives.rs:336-418 | `=` is symmetric whenever the host's float equality is |
| `PrimitiveProperties.ConditionalSelects` | src/primitives.rs:322-335 | `?` passes an exception condition through, selects the second or third argument on True or False (even when the other is an exception), else `TypeError` |
| `PrimitiveProperties.SubstringBounds` | src/primitives.rs:522-570 | `substr` is empty from the end of the string on or for a negative start, the rest of the string when start+len reaches the end or when len is negative, else exactly len characters; `strlen` is the length |
| `PrimitiveProperties.CarAndCdr` | src/primitives.rs:571-608 | `car` is the first item or `RuntimeError` on `[]`; `cdr` drops exactly one item and keeps `[]`; a non-list is a `TypeError` for both |
| `PrimitiveProperties.CarConsCdr` | src/primitives.rs:571-608 | `car` and `cdr` of a non-empty list put back together give the list |
| `PrimitiveProperties.CatchShapes` | src/primitives.rs:609-624 | `catch` always gives a list: `["ok", v]` for a value, `[flavour name, payload, stack]` for an exception |
| `PrimitiveProperties.RaiseAndReturn` | src/primitives.rs:625-644 | `raise v` and `~ v` are `Error` and `Return` exceptions carrying v with an empty stack |
| `PrimitiveProperties.CatchOfRaise` | src/primitives.rs:609-634 | `catch` of `raise v` is `["error", v, []]` |
| `Tokenizer.KeyOf` | src/tokenizer.rs:96-113 | the key of a source has one line index per character (the count of breaks before it) and one line per break, holding the characters since the previous break; it covers every position when the source ends with a break |
| `Tokenizer.BuildLineKey` | src/tokenizer.rs:96-113 | the loop builds `KeyOf(chars)`, so the key describes the source |
| `Tokenizer.LineNumbersCount` | src/tokenizer.rs:99-111 | line numbers start at 0, never decrease and rise by exactly one after each `\n` or `\r` |
| `Tokenizer.LineHasNoBreak` | src/tokenizer.rs:104-107 | the text recorded for a line holds no line break |
| `Tokenizer.KeyCoversSource` | src/tokenizer.rs:10-16 | on a source ending with a break, `get_lnum` and `get_line` stay within the key's tables for every position |
| `Tokenizer.TokenAt` | src/tokenizer.rs:91-92 | a token gets a line number of at least 1 (the line of the position after it) |
| `Tokenizer.SkipWhitespace` | src/tokenizer.rs:24-33 | the whitespace loop stops at the first non-whitespace character, or at the end |
| `Tokenizer.SkipComment` | src/tokenizer.rs:40-47 | the comment loop stops at the next line break or the last character |
| `Tokenizer.ScanString` | src/tokenizer.rs:51-59 | the string loop stops at the next `"` or the last character |
| `Tokenizer.ScanWord` | src/tokenizer.rs:67-72 | the word loop stops at whitespace, a reserved character or the last character |
| `Tokenizer.ScanToken` | src/tokenizer.rs:35-90 | the token read at a non-space, non-`#` position, advancing at least one character |
| `Tokenizer.ReadToken` | src/tokenizer.rs:35-93 | the token with the line number and text of the position after it, or the unterminated-string error |
| `Tokenizer.NextToken` | src/tokenizer.rs:18-94 | `next_token` strictly advances on a source ending with a break, returning EOF once only whitespace and comments remain |
| `Tokenizer.Tokenize` | src/tokenizer.rs:115-128 | `tokenize` terminates and gives `TokensFrom` position 0 with the key of the source: `next_token` repeated to the end, stopping at the first error; its tokens number at most the characters, EOF is exactly the last token, and every other token has a line number of at least 1 |
| `Tokenizer.TokensShape` | src/tokenizer.rs:119-127 | the tokens collected from a position number at most the characters left, hold EOF only as the last token and always end with it, and every other token has a line number of at least 1 |
| `Tokenizer.NextTokenKinds` | src/tokenizer.rs:24-93 | `next_token` answers EOF exactly when it moves to the end of the source, and any other token has a line number of at least 1 |
| `Tokenizer.PunctuationToken` | src/tokenizer.rs:36-39 | `:`, `;`, `[`, `]` are one-character tokens |
| `Tokenizer.WordToken` | src/tokenizer.rs:67-89 | a word holds no whitespace or reserved character, ends at one, and is classified |
| `Tokenizer.ClassificationOrder` | src/tokenizer.rs:74-87 | `true`/`false` first, then i64, then f64, else an identifier |
| `Tokenizer.StringToken` | src/tokenizer.rs:51-66 | a string token is exactly the characters between the quotes; a missing closing quote is an error |
| `Tokenizer.CommentSkipped` | src/tokenizer.rs:40-50 | `#` skips to the line break and yields the token after it |
| `Tokenizer.TrailingWhitespaceIsEOF` | src/tokenizer.rs:24-30 | whitespace up to the last character yields EOF with line -1 |
| `Tokenizer.WordAtLastCharacterMakesNoProgress` | src/tokenizer.rs:68-73 | a word scan starting at the last character stops at once, so the word read there is empty |
| `Tokenizer.UnterminatedLineHasNoText` | src/tokenizer.rs:102-111 | without a final line break, every position of the last line has the line index one past the recorded lines, the index `get_line` would read |
| `Parser.TokenAt` | src/parser.rs:20-26 | `get_token` succeeds exactly below the end, else the end-of-file error |
| `Parser.DefinitionAt` | src/parser.rs:28-50 | a definition ends more than one token after its start, just past a token that starts no expression; no definition answers index 0 |
| `Parser.CallAt` | src/parser.rs:52-72 | `parse_call` yields a call of the id at the start and advances |
| `Parser.ListAt` | src/parser.rs:74-99 | `parse_list` ends one past a closing bracket |
| `Parser.ListRest` | src/parser.rs:77-97 | the list loop keeps the items read so far, in order, and ends one past a closing bracket |
| `Parser.NextAt` | src/parser.rs:101-141 | an expression advances the index; no expression answers index 0 at a token that starts none |
| `Parser.BlockRest` | src/parser.rs:146-169 | the block loop keeps the expressions read so far, in order, and ends one past a token that starts no expression |
| `Parser.ParseTokens` | src/parser.rs:173-180 | a parsed program's last token starts no expression |
| `Parser.ParseDefinition` | src/parser.rs:28-50 | computes `DefinitionAt` |
| `Parser.ParseCall` | src/parser.rs:52-72 | computes `CallAt` |
| `Parser.ParseList` | src/parser.rs:74-99 | the list loop computes `ListAt` |
| `Parser.ParseNextExpression` | src/parser.rs:101-141 | computes `NextAt` |
| `Parser.ParseBlock` | src/parser.rs:143-171 | the block loop computes `BlockRest` from an empty block |
| `Parser.Parse` | src/parser.rs:173-180 | computes `ParseTokens` |
| `ParserProperties.LiteralAdvancesOne` | src/parser.rs:105-109 | a true, false, integer, float or string token is the matching literal and advances one token |
| `ParserProperties.NamedDefinition` | src/parser.rs:36-44 | an id followed by `:` is always a definition of that id with the following block, never a call, handing back the block's terminator |
| `ParserProperties.AnonymousDefinition` | src/parser.rs:32-35 | a leading `:` is a definition named `""` |
| `ParserProperties.BareCall` | src/parser.rs:52-71 | an id followed by neither `:` nor `[` is a call without arguments consuming one token |
| `ParserProperties.BracketedCall` | src/parser.rs:60-71 | an id followed by `[` is a call whose arguments are the bracketed list |
| `ParserProperties.PastTheEnd` | src/parser.rs:20-26 | reading past the last token is the end-of-file error |
| `ParserProperties.StrayTokenInList` | src/parser.rs:84-93 | in a list, a token that is neither an expression nor `]` is an error at its own line |
| `ParserProperties.MissingSemicolon` | src/parser.rs:158-166 | in a block, an expression not followed by `;` is an error at the offending token |
| `ParserProperties.BlockEnds` | src/parser.rs:150-155 | a block ends at, and consumes, the first token that starts no expression |
| `ParserProperties.DefinitionHandsBack` | src/parser.rs:114-131 | a definition answers the index of its block's terminating token |
| `ParserProperties.ParseNeedsWholeInput` | src/parser.rs:173-180 | `parse` succeeds iff the top-level block succeeds and ends at the end of the tokens |
| `ParserProperties.ReadsBackExpression` | src/parser.rs:101-141 | every printable expression is read back from its token spelling, ending just after it |
| `ParserProperties.ReadsBackItems` | src/parser.rs:74-99 | the items of a list are read back in order, ending one past `]` |
| `ParserProperties.ReadsBackStatements` | src/parser.rs:143-171 | the statements of a block are read back in order, ending past its terminator |
| `ParserProperties.ParseReadsBack` | src/parser.rs:173-180 | `parse` gives back every printable program from its spelling followed by EOF |
| `Evaluator.Innermost` | src/encoding_impl.rs:39-45 | the index of the highest frame binding the id, and none exactly when no frame binds it |
| `Evaluator.FindBinding` | src/encoding_impl.rs:39-45 | the lookup loop from the top frame down finds `Innermost` |
| `Evaluator.UnderscoreDepth` | src/encoding_impl.rs:77-85 | the depth is the id's length when it is all underscores, else none |
| `Evaluator.DefinitionShadows` | src/encoding_impl.rs:108-118 | after a definition the id resolves to the innermost frame and its new body |
| `Evaluator.DefinitionIsLocal` | src/encoding_impl.rs:108-118 | a definition changes no other id's lookup |
| `Evaluator.InnermostAgrees` | src/encoding_impl.rs:39-45 | lookup depends only on which frames bind the id |
| `Evaluator.CalleeSeesCallerBindings` | src/encoding_impl.rs:163-164 | a callee's fresh frame leaves every lookup of the caller unchanged (dynamic scope) |
| `Evaluator.Params` | src/encoding_impl.rs:74-92 | an id of d underscores with d at most the stack's height gives the argument list of frame len-d; any other `_` id is a `TypeError` |
| `Evaluator.Unwind` | src/encoding_impl.rs:170-177 | a `Return` exception gives its payload; any other exception keeps its flavour and payload and gets the context appended to its stack |
| `Evaluator.Evaluate` | src/encoding_impl.rs:129-141 | an expression only extends the innermost frame's bindings and may leave frames above it; outer frames and parameters are untouched |
| `Evaluator.EvaluateItems` | src/encoding_impl.rs:19-26 | a list that finishes has one value per item; the stack only grows as for an expression |
| `Evaluator.EvaluateCall` | src/encoding_impl.rs:37-100 | a call, whichever path it takes, changes the stack only as an expression may |
| `Evaluator.EvaluateComma` | src/encoding_impl.rs:47-72 | the comma changes the stack only as an expression may |
| `Evaluator.Invocation` | src/encoding_impl.rs:39-44 | a user call changes the stack only as an expression may, although its block pushes a frame |
| `Evaluator.EvaluateBlock` | src/encoding_impl.rs:157-186 | a block never changes the frames it was started on; it may only leave its own frame behind |
| `Evaluator.BlockFrom` | src/encoding_impl.rs:167-185 | the expression loop never changes the frames below the block's own |
| `Evaluator.Interpreter.EvalDefinition` | src/encoding_impl.rs:108-122 | `RedefError` with the stack unchanged if the innermost frame already binds the id (outer frames unchecked); otherwise the id is bound there and the Function returned |
| `Evaluator.Interpreter.EvalList` | src/encoding_impl.rs:19-26 | the item loop, pushing each value, computes `EvaluateItems` from the first item, with the stack it leaves |
| `Evaluator.Interpreter.EvalExpression` | src/encoding_impl.rs:129-141 | computes `Evaluate`, value and stack |
| `Evaluator.Interpreter.EvalCall` | src/encoding_impl.rs:37-100 | computes `EvaluateCall`, value and stack |
| `Evaluator.Interpreter.EvalComma` | src/encoding_impl.rs:47-72 | computes `EvaluateComma`, value and stack |
| `Evaluator.Interpreter.Invoke` | src/encoding_impl.rs:41-43 | computes `Invocation`, value and stack |
| `Evaluator.Interpreter.EvalBlock` | src/encoding_impl.rs:157-186 | the push, the expression loop with its early exits and the pop compute `EvaluateBlock`, value and stack |
| `EvaluatorProperties.LiteralEvaluates` | src/encoding_impl.rs:131-136 | a literal evaluates to itself and leaves the stack unchanged |
| `EvaluatorProperties.DefinitionEvaluates` | src/encoding_impl.rs:108-122 | a definition is a `RedefError` with the stack unchanged when the innermost frame binds the id, else it binds the body there and answers the function |
| `EvaluatorProperties.ListLiteralEvaluates` | src/encoding_impl.rs:137 | a list literal is the list of its items' values, one per item |
| `EvaluatorProperties.ItemsSplit` | src/encoding_impl.rs:22-24 | running the items is running the first k, then the rest on the stack they left |
| `EvaluatorProperties.ItemValue` | src/encoding_impl.rs:22-24 | item k's value is its evaluation on the stack the earlier items left, exceptions included |
| `EvaluatorProperties.ExceptionItemKept` | src/encoding_impl.rs:22-24 | an item that evaluates to an exception is kept and the items after it still run |
| `EvaluatorProperties.ItemsOfLiterals` | src/encoding_impl.rs:19-26 | literal items give their own values and leave the stack unchanged |
| `EvaluatorProperties.UserCallRunsBody` | src/encoding_impl.rs:39-44 | a bound id runs the body found before the arguments ran, on the argument values, with the id as context and one unit of fuel less |
| `EvaluatorProperties.CommaArgError` | src/encoding_impl.rs:48-52 | `,` with fewer than two arguments is an `ArgError`, evaluates nothing and leaves the stack unchanged |
| `EvaluatorProperties.CommaRefuses` | src/encoding_impl.rs:53-72 | `,` passes on an exception first argument, and a non-function first argument or a second that is not a list literal is a `TypeError` |
| `EvaluatorProperties.CommaApplies` | src/encoding_impl.rs:56-61 | `,` runs the function's block on the list's values with context `,` and one unit of fuel less |
| `EvaluatorProperties.ParamsByDepth` | src/encoding_impl.rs:74-92 | an unbound `_` id evaluates no argument and gives frame len-d's arguments, or a `TypeError` |
| `EvaluatorProperties.PrimitiveOnValues` | src/encoding_impl.rs:93-97 | any other unbound id is `Dispatch` on the argument values, or the `Panic` halt |
| `EvaluatorProperties.PrimitiveOnLiterals` | src/encoding_impl.rs:93-97 | a built-in on literal arguments leaves the stack unchanged and computes `Dispatch` on their values exactly when it does not panic |
| `EvaluatorProperties.BlockRunsThrough` | src/encoding_impl.rs:168-182 | expressions that end without an exception pass the loop on, holding the last value |
| `EvaluatorProperties.BlockNormalExit` | src/encoding_impl.rs:167-185 | with no exception the block answers the last value (False when empty) and pops the top frame of the stack its expressions left |
| `EvaluatorProperties.EmptyBlock` | src/encoding_impl.rs:163-185 | an empty block pushes and pops a frame and answers False |
| `EvaluatorProperties.BlockExceptionExit` | src/encoding_impl.rs:168-178 | the first exception ends the block: a `Return` gives its payload, another exception gets the context appended, later expressions are skipped, and no frame is popped |
| `EvaluatorProperties.BlockKeepsCaller` | src/encoding_impl.rs:157-186 | the frames a block was started on come back unchanged below whatever it leaves |
| `EvaluatorProperties.FuelMonotone` | src/encoding_impl.rs:129-141 | an expression that finishes with some fuel finishes with the same value and stack given any more fuel |
| `EvaluatorProperties.FuelMonotoneItems` | src/encoding_impl.rs:19-26 | a list that finishes with some fuel gives the same values and stack with more |
| `EvaluatorProperties.FuelMonotoneCall` | src/encoding_impl.rs:37-100 | a call that finishes with some fuel gives the same value and stack with more |
| `EvaluatorProperties.FuelMonotoneComma` | src/encoding_impl.rs:47-72 | a comma apply that finishes with some fuel gives the same value and stack with more |
| `EvaluatorProperties.FuelMonotoneInvocation` | src/encoding_impl.rs:39-44 | a user call that finishes with some fuel gives the same value and stack with more |
| `EvaluatorProperties.FuelMonotoneBlock` | src/encoding_impl.rs:157-186 | a block that finishes with some fuel gives the same value and stack with more |
| `EvaluatorProperties.FuelMonotoneBlockFrom` | src/encoding_impl.rs:167-185 | the expression loop that finishes with some fuel gives the same value and stack with more |

## Left out

- src/main.rs (argument handling, reading the file) and the top-level `evaluator::evaluate` are not part of this model. The evaluator's entry point here is `EvalBlock`.
- Display rendering (src/encoding_display.rs) is the host's `render` function, used by the `string` primitive. Only the flavour-name table is modelled.
- Float arithmetic, comparison, int/float conversion and f64 parsing are the host's functions; no IEEE behaviour is proved.
- The text the `>>` primitive prints is not modelled; only its False result is.
- Rust panics are not given a behaviour. Integer overflow and a zero divisor are a precondition of `Dispatch` and the halt `Stuck(Panic)` in the evaluator. `Definition::evaluate` with an empty stack is a precondition of the evaluator's methods.
- `Encoding.Fault`: the payload and stack of the interpreter's own faults come from `evaluator::exception`, which is not part of this model; the model uses the message as payload and an empty stack, and properties state only the flavour.
- `Primitives.Panics`: `as usize` of an i64 is modelled as the value modulo 2^64 (a 64-bit target). Strings are sequences of characters, so the byte length used by `substr` is the character count only for ASCII text.
- HashMap iteration order is never observed; bindings are maps.
- `Evaluator.Invocation`: a user function's block runs with one unit of fuel less than its call, so a program that nests calls deeper than the fuel given ends in `Stuck(OutOfFuel)` instead of being followed to the end. Fuel changes nothing else: a run that finishes gives the same value and stack with any more fuel (`EvaluatorProperties.FuelMonotone`).
- `Tokenizer.Tokenize`: requires the source to be empty or end with a line break. Without one, the key records no text for the last line. A token ending on that line then makes `get_line` index past the table and panic (`Tokenizer.UnterminatedLineHasNoText`), and a string closed at the last character makes `get_lnum` index past `lnums`. The model leaves those panics out.
- `Tokenizer.Tokenize`: the same requirement also excludes sources whose unterminated last line is only whitespace, such as `"x\n  "`. The source tokenizes those correctly, since its whitespace loop returns EOF at the last character (src/tokenizer.rs:24-29).
- `Parser.TokenAt`: on an empty token list the source computes `tokens.len() - 1` in `usize` and panics. The model reports the end-of-file error instead. `tokenize` never produces an empty list for a non-empty source.
- The `clone` methods of src/encoding_impl.rs are value copies; Dafny values are immutable.
