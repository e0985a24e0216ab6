# GraphRepl interpreter core in Dafny

GraphRepl is a Qt desktop REPL for a small Lisp dialect. Text typed into the
window goes through one pipeline:
1. It is checked for balanced parentheses outside string literals.
2. It is cut into tokens by a regular expression.
3. One form is read into an S-expression tree; atoms that are not string
   literals are upper-cased.
4. The form is evaluated against a chain of environments.

The evaluator classifies each expression in a fixed order: number literal,
`TRUE`/`FALSE`, string literal, bound variable, lambda literal, application,
and otherwise the "No found type" failure. An application whose head names one
of the thirty primitives calls it on the unevaluated argument nodes. Any other
head is evaluated to a procedure. A procedure runs in a fresh child of the
CALLER's environment, because procedures capture no environment: scoping is
dynamic.

This project models that pipeline in three layers.

* **Data and environments.**
  - `Syntax` holds the S-expression node, its accessors and its printer.
  - `Values` holds the four-way value and its string constructors and printer.
  - `Scopes` is the environment chain as a sequence of frames.
  - `Environments` is the `Environment` class with its frame, its parent
    pointer, and `define`/`set`/`get`/`has`. Each is proved against `Scopes`.
* **Reader.**
  - `Lexer` holds `tokenizeLisp`, written as scanners in place of the regular
    expression, and `areParenthesesBalanced`. Both are loops proved against
    functional specifications.
  - `Reader` holds `parse_tokens` over a token cursor class, proved against a
    parsing function, plus a round trip from trees to tokens and back.
  - `Classify` holds the atom classifiers, the number literal, and
    `ensureSingleTypeAndCompare`.
* **Evaluator.**
  - `Semantics` is a functional reference evaluator covering `Eval`,
    `isApplication`, `Apply`, `ApplyLambda`, every primitive and the
    evaluate-button step. It takes a `fuel` bound on nesting depth and
    returns each result together with the new innermost frame, the only
    frame evaluation writes.
  - `Interpreter.Evaluator` is the imperative evaluator. It works over
    `Environment` objects and holds the primitive table. Each of its methods
    is proved to produce exactly what `Semantics` says, both the result and
    the new bindings of the environment it was given.
  - `SemanticsFacts` states what the language promises on top of that: the
    classification order, primitive heads winning over variables, dynamic
    scope, the frames DEFINE and BEGIN write, the folds of `+ - * /`, the
    comparison chain, AND/OR truthiness, COND and the argument-count rules.

Failures are values of `Results.Error`, one constructor per kind of message.
`IOError` stands for both "Could not open file" and "Error reading file". Two
messages keep the source's wording even though it names the wrong primitive:
OR's arity failure says `and`, and EXIT's says `/`.

Where the documented behaviour and the code disagree, the model follows
the code:
- A bare atom that is not bound fails with "No found type". It does not fail
  with "Variable not found", because `isVariable` already checks `has` before
  `get` is reached (evaluator.cpp:38-40, 66-67).
- COND's else test compares with the lower-case atom `else`. The reader
  upper-cases every atom, so an `else` clause typed by a user is an ordinary
  clause whose condition is the variable `ELSE`.

Each runtime value holds exactly one of the four variants, by construction of
the `Value` datatype. Likewise each node is an atom exactly when it was built
from a string.

## Model

| member | source | states |
|---|---|---|
| Syntax.AsAtom | listobject.cpp:34-36 | succeeds exactly on an atom, returning its text; a list fails with the wrong-variant failure |
| Syntax.AsList | listobject.cpp:38-40 | succeeds exactly on a list, returning its children; an atom fails with the wrong-variant failure |
| Syntax.Print | listobject.cpp:42-54 | an atom prints verbatim; a list prints as text that starts with `[` and ends with `]` |
| Syntax.PrintBrackets | listobject.cpp:42-54 | for atoms without brackets, the printed text holds exactly one `[` and one `]` per list node of the tree |
| Values.FromString | value.cpp:27-33 | yields a string value; quoted text loses exactly its surrounding quote pair, any other text is kept as is |
| Values.FromCString | value.cpp:34 | yields a string value holding the text verbatim, quotes included |
| Values.AsNumber | value.cpp:43 | succeeds exactly on a number, returning it; other variants fail with the wrong-variant failure |
| Values.AsString | value.cpp:44 | succeeds exactly on a string, returning its text; other variants fail with the wrong-variant failure |
| Values.AsBool | value.cpp:45 | succeeds exactly on a boolean, returning it; other variants fail with the wrong-variant failure |
| Values.AsLambda | value.cpp:46 | succeeds exactly on a procedure, returning its parameters and body; other variants fail with the wrong-variant failure |
| Values.Show | value.cpp:55-68 | a string prints wrapped in `"` around its text, booleans as `TRUE`/`FALSE`, every procedure as `<lambda>` |
| Values.ShowFromQuoted | value.cpp:27-33 | printing the value built from a quoted literal gives back the literal |
| Values.FromStringShow | value.cpp:61-62 | building a value from a string's printed form gives back the same string, whatever it contains |
| Values.ShowDistinguishesStrings | value.cpp:61-66 | a printed string never equals a printed boolean or procedure |
| Scopes.Nearest | environment.cpp:47-53 | the innermost frame position binding the name: it binds it and no frame before it does |
| Scopes.Define | environment.cpp:32-35 | only the innermost frame changes, and it gains the binding |
| Scopes.Assign | environment.cpp:37-45 | the chain keeps its length |
| Scopes.LookupWalksChain | environment.cpp:47-56 | a name bound in the first frame is read there; otherwise lookup continues in the rest of the chain |
| Scopes.DefineThenLookup | environment.cpp:32-35 | after define, the name reads back as the new value and every other name reads as before |
| Scopes.AssignUpdatesNearest | environment.cpp:37-44 | set on a bound name changes only the innermost frame holding it, and the name then reads as the new value |
| Environments.Environment.Root | environment.cpp:25 | a valid global frame with no bindings |
| Environments.Environment.Child | environment.cpp:30 | a valid empty frame whose chain is the parent's chain with it in front |
| Environments.Environment.Has | environment.cpp:58-65 | true exactly when some frame of the chain binds the name |
| Environments.Environment.Get | environment.cpp:47-56 | succeeds exactly when has holds, with the innermost binding; otherwise fails with "Variable not found" |
| Environments.Environment.Define | environment.cpp:32-35 | binds in this frame only; the enclosing frames are unchanged |
| Environments.Environment.Set | environment.cpp:37-45 | returns whether the name was bound; the new chain is the old one with the innermost binding replaced, unchanged when unbound |
| Lexer.TokenizeLisp | utils.cpp:26-39 | the search-and-append loop yields exactly the token sequence of the input |
| Lexer.QuoteFirstWins | utils.cpp:29-36 | at a `"` the quoted-literal alternative takes the token exactly when a closing `"` follows later in the text; otherwise the `"` starts a run token |
| Lexer.LexTokenKinds | utils.cpp:29-36 | every token is `(`, `)`, a quoted literal with no inner `"`, or a non-empty run free of white space and parentheses |
| Lexer.LexEmpty | utils.cpp:29-36 | no token exactly when the input is all white space |
| Lexer.LexCoversInput | utils.cpp:29-38 | the input is its tokens in order, without overlap, separated only by white space |
| Lexer.UnterminatedQuote | utils.cpp:29-36 | an unterminated `"abc` is a single run token, not a failure |
| Lexer.LexFirst | utils.cpp:33-35 | a token followed by white space or nothing is read first, and the rest is tokenized after it |
| Lexer.LexJoin | utils.cpp:26-39 | tokens joined by single spaces tokenize back to the same tokens |
| Lexer.AreParenthesesBalanced | utils.cpp:146-170 | true exactly when, outside unescaped-quote strings, no prefix closes more than it opens and the totals agree |
| Lexer.UnbalancedExample | utils.cpp:146-170 | `(+ 1 2` is rejected |
| Lexer.BalancedExample | utils.cpp:146-170 | `(+ 1 (* 2 3))` is accepted |
| Lexer.QuotedParenExample | utils.cpp:153-157 | a parenthesis inside a string literal is not counted |
| Reader.TokenStream.constructor | listobject.cpp:56 | a cursor at the start of the tokens |
| Reader.TokenStream.HasNext | listobject.cpp:57 | true exactly when tokens remain |
| Reader.TokenStream.Peek | listobject.cpp:63 | the token under the cursor |
| Reader.TokenStream.Next | listobject.cpp:59 | returns the token under the cursor and advances by one |
| Reader.NormalizeAtom | listobject.cpp:72-77 | a quoted literal is kept verbatim; in any other token each lower-case ASCII letter becomes its upper-case letter and every other character is kept; the length never changes |
| Reader.NormalizeIdempotent | listobject.cpp:72-77 | normalising a parsed atom again changes nothing |
| Reader.NormalizeNeverLowerElse | listobject.cpp:75 | no parsed atom is the lower-case `else` |
| Reader.ParseForm | listobject.cpp:56-79 | the cursor never moves back, and a successful parse consumes at least one token |
| Reader.ParseItems | listobject.cpp:61-68 | the cursor never moves back, and a successful list consumes at least its `)` |
| Reader.ParseTokens | listobject.cpp:56-79 | the recursive cursor parser returns the result of the parsing function and leaves the cursor where it says |
| Reader.ParseTokensOf | listobject.cpp:56-79 | parsing the tokens of a readable tree returns that tree and stops right after its last token, whatever follows |
| Reader.ParseItemsTokensOf | listobject.cpp:61-68 | the children's tokens followed by `)` parse to the list of those children |
| Reader.ParseConsumesOneForm | listobject.cpp:56-79 | a successful parse yields a readable tree spelled exactly by the normalised tokens consumed |
| Reader.ParseItemsConsumes | listobject.cpp:61-68 | a successful list ends at a `)` and its children are spelled by the normalised tokens before it |
| Reader.EmptyListExample | listobject.cpp:61-68 | `()` is the empty list |
| Reader.ParseErrorExamples | listobject.cpp:57-70 | a leading `)`, a missing `)` and an empty stream fail with their own messages |
| Classify.IsNumeralMatchesPattern | utils.cpp:41-49 | the number scanner accepts exactly the text `-?[0-9]+(\.[0-9]+)?` matches as a whole |
| Classify.ParseDecimal | evaluator.cpp:28-29 | every decimal text, with or without `-`, is a number literal and reads as its value |
| Classify.FractionLiteral | evaluator.cpp:28-29 | `w.f` reads as the whole part plus the fraction digits over the matching power of ten |
| Classify.ParseDecimalFraction | evaluator.cpp:28-29 | the decimal text of a whole number, a `.` and digits reads as whole plus fraction |
| Classify.LambdaParams | evaluator.cpp:42-48 | one name per element of the parameter list, in order, each that element's atom text |
| Classify.AtomClassesDisjoint | utils.cpp:41-73 | no atom is two of number, boolean and string |
| Classify.EnsureSingleTypeAndCompare | utils.cpp:134-144 | fails when any value is not a number; otherwise TRUE exactly when every adjacent pair is ordered |
| Classify.CompareShort | utils.cpp:139-143 | fewer than two values are in order, unless the one value is not a number |
| Classify.CompareNumbers | utils.cpp:134-144 | on numbers the answer is whether the chain of their values is ordered |
| Classify.CompareChainOrdersAll | utils.cpp:139-143 | an accepted chain orders every pair, not only neighbours |
| Semantics.IsApplication | utils.cpp:115-132 | only a stack overflow or EXIT escapes the catch-all; every other failure of the head means "not an application" |
| Semantics.EvalAll | primitive.cpp:115-117 | on success one value per remaining argument |
| SemanticsFacts.EvalAtom | evaluator.cpp:28-40 | atoms leave the frame alone; literals are their values even when a variable of that spelling is bound; other atoms read their innermost binding and fail with "No found type" when unbound |
| SemanticsFacts.PrimitiveNameAlone | evaluator.cpp:38-40 | any of the thirty primitive names, alone and unbound, fails with "No found type" |
| SemanticsFacts.PrimitiveHeadWins | evaluator.cpp:74-77 | a list headed by a primitive name calls that primitive on the unevaluated arguments, whatever the name is bound to |
| SemanticsFacts.ProcedureHeadCalls | evaluator.cpp:78-98 | a list headed by a variable bound to a procedure binds the arguments and runs the body in the caller's chain |
| SemanticsFacts.NonProcedureHead | utils.cpp:123-131 | a list headed by an unbound name or a non-procedure fails with "No found type" |
| SemanticsFacts.LambdaLiteral | evaluator.cpp:41-56 | a lambda literal evaluates nothing and yields its parameter atoms and the list of its remaining elements |
| SemanticsFacts.VariableBody | evaluator.cpp:89-93 | a body of one variable yields that variable's binding |
| SemanticsFacts.BindNumerals | evaluator.cpp:82-87 | binding literal arguments succeeds, leaves the caller's frame as it was, and the new frame binds exactly the parameters |
| SemanticsFacts.DynamicScope | evaluator.cpp:79-93 | a procedure whose body is a variable that is not one of its parameters yields the caller's binding of it at call time, for any number of literal arguments |
| SemanticsFacts.DefineThenRead | primitive.cpp:35-51 | DEFINE of any operand: its failure is DEFINE's failure; its value is returned and bound in the frame the operand left behind, and the name then reads it back |
| SemanticsFacts.DefineNumeral | primitive.cpp:45-50 | DEFINE of a literal binds its value in the innermost frame |
| SemanticsFacts.ReadDefined | evaluator.cpp:38-40 | a name bound in the innermost frame reads back its value |
| SemanticsFacts.BeginKeepsFrame | primitive.cpp:53-62 | BEGIN leaves the caller's frame unchanged, whatever its body defines |
| SemanticsFacts.NumeralValues | evaluator.cpp:29 | one value per literal, each the literal's reading |
| SemanticsFacts.EvalNumeral | evaluator.cpp:28-29 | a literal argument evaluates to its value and leaves the frame alone |
| SemanticsFacts.FoldStepNumeral | primitive.cpp:211-216 | one turn of the accumulator loop combines a literal's value |
| SemanticsFacts.FoldStepZero | primitive.cpp:275-277 | a literal zero divisor stops the loop with "division by zero" |
| SemanticsFacts.FoldNumerals | primitive.cpp:209-218 | the accumulator loop over literals folds their values left to right and leaves the frame alone |
| SemanticsFacts.FoldZeroDivisor | primitive.cpp:270-280 | a zero among the divisors fails the division loop |
| SemanticsFacts.SumAndProductOfNumerals | primitive.cpp:209-253 | `+` of literals is their sum from 0, `*` their product from 1 |
| SemanticsFacts.MinusDivFirst | primitive.cpp:234-241 | with two or more operands the rest are folded into the first |
| SemanticsFacts.MinusOfNumerals | primitive.cpp:220-242 | `-` needs an operand, negates one, subtracts the rest from the first left to right |
| SemanticsFacts.DivideOfNumerals | primitive.cpp:255-283 | `/` needs an operand, inverts one (failing on zero), divides the first by the rest and fails on any zero divisor but not a zero dividend |
| SemanticsFacts.EmptySumAndProduct | primitive.cpp:209-253 | `(+)` is 0 and `(*)` is 1 |
| SemanticsFacts.NumeralNumbers | evaluator.cpp:29 | one number value per literal |
| SemanticsFacts.EvalAllStepNumeral | primitive.cpp:115-117 | one turn of the collecting loop appends a literal's value |
| SemanticsFacts.EvalAllNumerals | primitive.cpp:115-117 | collecting literals yields their values and leaves the frame alone |
| SemanticsFacts.CompareNumerals | primitive.cpp:114-140 | an ordering of literals is TRUE exactly when each adjacent pair is ordered |
| SemanticsFacts.CompareOrdersAllPairs | primitive.cpp:114-140 | an ordering of literals that answers TRUE orders every pair |
| SemanticsFacts.LogicYieldsBoolean | primitive.cpp:142-164 | AND and OR answer with a boolean, never an operand |
| SemanticsFacts.AndStepNumeral | primitive.cpp:146-150 | a literal number does not stop AND |
| SemanticsFacts.OrStepNumeral | primitive.cpp:158-162 | a literal number does not stop OR |
| SemanticsFacts.AndOfNumerals | primitive.cpp:142-152 | AND of numbers is TRUE: only FALSE stops it |
| SemanticsFacts.OrOfNumerals | primitive.cpp:154-164 | OR of numbers is FALSE: only TRUE satisfies it |
| SemanticsFacts.CondTakesNumber | primitive.cpp:84-90 | a clause whose condition is a number is chosen, since only FALSE skips a clause |
| SemanticsFacts.CondFirstNotFalse | primitive.cpp:68-91 | after clauses whose conditions all evaluate to FALSE without writing the frame, the first clause whose condition has any other value gives its body's outcome |
| SemanticsFacts.CondAllFalse | primitive.cpp:68-93 | when every condition evaluates to FALSE without writing the frame, COND yields Number 0 with the frame unchanged |
| SemanticsFacts.ParsedElseIsVariable | primitive.cpp:78 | no parsed form is the lower-case `else` COND tests for |
| SemanticsFacts.SurplusArgumentsIgnored | evaluator.cpp:83-87 | arguments beyond the parameters are never evaluated |
| SemanticsFacts.TooFewArgumentsFail | evaluator.cpp:83-87 | fewer arguments than parameters fail |
| SemanticsFacts.UnbalancedInputRejected | mainwindow.cpp:118-121 | `(+ 1 2` is rejected before anything is read or evaluated |
| Interpreter.Evaluator.constructor | evaluator.cpp:122-156 | the primitive table holds the thirty registered names |
| Interpreter.Evaluator.IsPrimitive | evaluator.cpp:158-160 | true exactly for the registered names |
| Interpreter.Evaluator.GetPrimitive | evaluator.cpp:162-167 | the table entry for a registered name; " Unknown primitive" otherwise |
| Interpreter.Evaluator.Eval | evaluator.cpp:27-71 | the result and the new bindings of the environment are what the reference evaluator gives |
| Interpreter.Evaluator.ParamNames | evaluator.cpp:45-48 | the parameter names of the lambda literal, in order |
| Interpreter.Evaluator.IsApplication | utils.cpp:115-132 | agrees with the reference classification, including which failures the catch-all swallows |
| Interpreter.Evaluator.Apply | evaluator.cpp:73-99 | primitive dispatch or procedure call, as the reference gives |
| Interpreter.Evaluator.ApplyProcedure | evaluator.cpp:78-98 | the head re-evaluated to a procedure, as the reference gives |
| Interpreter.Evaluator.CallClosure | evaluator.cpp:82-96 | arguments bound in a child of the caller's environment and the body run there; the caller's frame keeps only what argument evaluation defined |
| Interpreter.Evaluator.BindArguments | evaluator.cpp:83-87 | the binding loop gives the reference result, and on success the frame holds exactly the bound parameters |
| Interpreter.Evaluator.BindStep | evaluator.cpp:84-86 | one parameter bound, or the failure that ends the loop |
| Interpreter.Evaluator.RunBody | evaluator.cpp:89-96 | a non-empty list body runs as a sequence, anything else as one expression |
| Interpreter.Evaluator.EvalSequence | evaluator.cpp:90-92 | the body loop returns the last value, stopping at the first failure |
| Interpreter.Evaluator.SequenceStep | evaluator.cpp:90-92 | one body expression evaluated, or the failure that ends the loop |
| Interpreter.Evaluator.ApplyLambda | evaluator.cpp:101-120 | pre-evaluated values bound in a child frame, the body run there; the caller's bindings are unchanged |
| Interpreter.Evaluator.CallPrimitive | evaluator.cpp:74-77 | each table entry runs its primitive, as the reference gives |
| Interpreter.Evaluator.StdDefine | primitive.cpp:35-51 | arity and symbol checks, then the value bound in the current frame |
| Interpreter.Evaluator.StdBegin | primitive.cpp:53-62 | the arguments run in a fresh child frame; the last value |
| Interpreter.Evaluator.StdCond | primitive.cpp:64-94 | needs a clause; the clause loop as the reference gives |
| Interpreter.Evaluator.CondClauses | primitive.cpp:68-93 | the first clause whose test is not FALSE (or the lower-case else) gives the value; Number 0 when none does |
| Interpreter.Evaluator.CondTest | primitive.cpp:69-90 | one clause checked: a chosen clause has a body, a skipped one continues the loop |
| Interpreter.Evaluator.StdEqual | primitive.cpp:97-112 | equal only for same-variant numbers, booleans or strings |
| Interpreter.Evaluator.StdCompare | primitive.cpp:114-140 | every operand evaluated, then the chain rule |
| Interpreter.Evaluator.EvalArgs | primitive.cpp:115-117 | the operands' values in order, stopping at the first failure |
| Interpreter.Evaluator.StdAnd | primitive.cpp:142-152 | FALSE at the first FALSE, TRUE otherwise |
| Interpreter.Evaluator.StdOr | primitive.cpp:154-164 | TRUE at the first TRUE, FALSE otherwise |
| Interpreter.Evaluator.StdNot | primitive.cpp:166-174 | TRUE exactly for FALSE |
| Interpreter.Evaluator.StdIsType | primitive.cpp:176-206 | whether the operand has the tested variant |
| Interpreter.Evaluator.FoldArgs | primitive.cpp:209-218 | the accumulator loop gives the reference fold |
| Interpreter.Evaluator.FoldOne | primitive.cpp:211-216 | one operand combined, or the failure that ends the loop |
| Interpreter.Evaluator.StdMinus | primitive.cpp:220-242 | `-` as the reference gives |
| Interpreter.Evaluator.StdDiv | primitive.cpp:255-283 | `/` as the reference gives, including both zero checks |
| Interpreter.Evaluator.StdMath | primitive.cpp:285-373 | one number operand, the host's libm result |
| Interpreter.Evaluator.StdPow | primitive.cpp:296-307 | both operands evaluated before either is checked |
| Interpreter.Evaluator.StdExit | primitive.cpp:376-382 | always fails: the arity failure (naming '/') with operands, the halt without |
| Interpreter.Evaluator.StdLoadFile | primitive.cpp:384-422 | one string operand naming a readable file whose forms are evaluated in the caller's environment |
| Interpreter.Evaluator.LoadTokens | primitive.cpp:412-421 | the read-evaluate loop yields TRUE once the tokens run out, stopping at the first failure |
| Interpreter.Evaluator.LoadOne | primitive.cpp:415-418 | one form read and evaluated, the cursor strictly advanced |
| Interpreter.Evaluator.StdDrawPlot | primitive.cpp:424-433 | three operands; FALSE on wrong kinds; otherwise the sampling loop |
| Interpreter.Evaluator.PlotSamples | primitive.cpp:484-512 | the procedure applied to every sample, stopping at the first failure |
| Interpreter.Evaluator.PlotStep | primitive.cpp:485 | one sample, leaving the environment's bindings unchanged |
| Interpreter.Evaluator.EvaluateSource | mainwindow.cpp:118-129 | balance check, then the first form read and evaluated in the global environment |

## Left out

- Numbers are exact `real`s. `long double` rounding, infinities, NaN and
  negative zero are not modelled, and neither is `std::stold` failing on
  literals too large for `long double`.
- Printing a number goes through a `std::stringstream`, whose formatting is
  platform-defined. It is the parameter `showNumber` of `Values.Show`.
- The results of `sqrt`, `pow`, `sin`, `cos`, `tan`, `asin`, `acos` and
  `atan`, the file reads of LOAD-FILE and the x coordinates DRAW-PLOT samples
  are supplied by a `Host` value. They are libm, the file system and
  double-precision stepping.
- The painting, widgets and event loop of DRAW-PLOT are left out because they
  are Qt drawing. Only its operands, its FALSE answer and the procedure calls
  it makes are modelled.
- EXIT ends the process. It is the `Halted` failure, which, like a stack
  overflow, `isApplication`'s catch-all does not swallow.
- Stack depth is the `fuel` bound. Running out is the `StackOverflow` failure
  in place of a crash.
- A call with fewer arguments than parameters indexes past the end of the
  argument vector, which is undefined behaviour. The model fails with
  `MissingArgument` instead.
- `isString` on an empty atom reads out of bounds. The reader never produces
  an empty atom, and the model does not count it as a string.
- `shared_ptr` ownership and lifetimes are left out, as is the `std::cerr`
  diagnostic of `isLambda`.
- The main window, its variable table, the editor and the syntax highlighter
  are left out because they are Qt interface code. Only the evaluate step
  (`EvaluateSource`) is modelled.
- Strings are sequences of `char`, not bytes. The source's `std::string`
  holds bytes, so multi-byte UTF-8 text is not modelled byte by byte.
- `Reader.UpperChar` is the ASCII upper-casing of the C locale. The source
  calls `::toupper` on possibly negative `char`s in the locale the Qt
  application takes from the environment, which may map more characters.
- The token cursor class of tokenstream.h is not part of this model. It is
  represented by `Reader.TokenStream`.
- Scopes.Assign: its own contract states only that the chain keeps its
  length. What `set` changes is stated by `Scopes.AssignUpdatesNearest` and
  by `Environments.Environment.Set`.
- Syntax.Print: its own contract states atoms verbatim and lists bracketed.
  The single space between children is stated by its definition only.
- SemanticsFacts.CondFirstNotFalse, SemanticsFacts.CondAllFalse: they assume
  that the skipped conditions do not write the frame (no DEFINE inside a
  condition). The general clause loop, frame writes included, is
  `Semantics.CondFrom`, which `Interpreter.Evaluator.CondClauses` is proved
  to follow.
- Reader.ParseForm, Reader.ParseItems: their own contracts state only how the
  cursor moves. What they read is stated by `ParseTokensOf` and
  `ParseConsumesOneForm`.
