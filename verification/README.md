# fur: a dependently typed calculus, its checker and its grammar

`fur` is a small calculus with the following pieces:

- universes `U(i)` indexed by a byte;
- the type `Int` of 64-bit integers, with literals and `+`;
- the unit type `Trivial` and its element `sole`;
- variables and type annotations `e : T`.

Its engine has four parts:

- **Bidirectional checker.** `check` and `infer` are mutually recursive. `check` compares types only by quoting them back to terms.
- **Normalisation by evaluation.** Terms evaluate to values. A sum that mentions a free variable becomes a stuck (neutral) value. Values are quoted back to terms.
- **Display.** A precedence-driven renderer for terms.
- **Parser.** A grammar written with parser combinators.

A read-eval-print loop ties these together. It parses a line, infers its type in the empty context, evaluates it, and prints `value : type`.

The model is pure. It is built from datatypes, functions and lemmas, in these modules:

| module | contents |
|---|---|
| `Wrappers` | `Option`, `Result` and `Outcome`. |
| `Base` | The scalar types: `Int` is the signed 64-bit range and `Level` is a byte. It also holds the `Prec` order. |
| `Decimal` | Decimal digit strings. The display of numbers and the integer parsers both use them. |
| `Syntax` | Terms, term equality and display. |
| `Values` | Values and neutral values, value-level `+` and quoting. It also defines contexts and environments. |
| `Checker` | Evaluation, `check` and `infer`. |
| `EvalLaws`, `TypingLaws` | What evaluation and the two typing judgements do, case by case. |
| `Safety` | The `unreachable!()` arm of value addition is never reached for an accepted term. |
| `Parser` | The grammar, as a recursive-descent parser with the same alternatives in the same order. |
| `ParserLaws` | What the grammar accepts, stated against the display. |
| `Repl` | One round of the loop. |

Two things can abort evaluation, and both become an explicit `Panic` value:

- the `unreachable!()` arm of value addition;
- `i64` overflow of `+`, which panics in a debug build.

Evaluation returns `Result<Value, Panic>`. `infer` evaluates the type of an annotation. If that evaluation aborts, `infer` reports the panic as the error `Panicked`. `Safety` proves that this cannot happen in a well-formed context.

The central theorem is `Safety.AcceptedTermsEvaluate`. For a term accepted in the empty context, evaluation never reaches `unreachable!()`. When it succeeds, the value is not neutral and inhabits the inferred type. When it fails, the failure is an overflow, and the type is `Int`.

## Model

| member | source | states |
|---|---|---|
| `Base.PrecOrder` | src/lib.rs:22-27 | `Prec` is a strict total order `Ann < Add < Atom`; the only precedence below `Add` is `Ann`. |
| `Decimal.NatToString` | src/expr.rs:125 | The decimal display of a level or magnitude is a nonempty digit string whose value is the number, with no leading zero. |
| `Decimal.IntToString` | src/expr.rs:127 | The display of an `i64` starts with `-` exactly for negative numbers, followed by the digits of the magnitude. |
| `Decimal.DigitRun` | src/parser.rs:32-34 | The length of the longest leading run of digits, which the integer parsers consume. |
| `Syntax.AlphaEq` | src/expr.rs:23-25 | Alpha-equivalence holds exactly for equal terms, since there are no binders. |
| `Syntax.PrecOf` | src/expr.rs:106-112 | Only an annotation binds more loosely than `+`, and only annotations and sums are not atoms. |
| `Syntax.ShowParens` | src/expr.rs:98-104 | With the flag set, the display is wrapped in one pair of parentheses; without it, it is the plain display. |
| `Syntax.Show` | src/expr.rs:121-138 | The display of a term. Its contract is carried by `Syntax.ShowLayout`, `Syntax.ShowForgetsRightNesting`, `Syntax.ShowForgetsAnnNesting` and, against the parser, `ParserLaws.ParseShow`. |
| `Syntax.ShowLayout` | src/expr.rs:121-132 | An operand of `+` is parenthesised exactly when it is an annotation; an annotation prints as `e1 : e2` without parentheses. |
| `Syntax.ShowForgetsRightNesting` | src/expr.rs:128-132 | `a + (b + c)` and `(a + b) + c` are different terms with the same display. |
| `Syntax.ShowForgetsAnnNesting` | src/expr.rs:124 | `(a : b) : c` and `a : (b : c)` are different terms with the same display. |
| `Values.QuoteNeutral` | src/value.rs:11-17 | Quoting a stuck value gives a variable or a sum. |
| `Values.Quote` | src/value.rs:38-48 | Quoting gives a variable or a sum exactly for neutral values. |
| `Values.VarValue` | src/value.rs:50-52 | A free name is a stuck value that quotes back to the same name. |
| `Values.AddValues` | src/value.rs:67-77 | Two literals add, or overflow when the sum leaves the `i64` range. A neutral left operand stays on the left. A neutral right operand alone is moved to the left. Every other pairing, and only those, is `unreachable!()`. |
| `Checker.EnvOf` | src/expr.rs:55-58 | The environment holds exactly the context entries that carry a value, with that value. |
| `Checker.Eval` | src/expr.rs:82-96 | A term without names never evaluates to a stuck value, whatever the environment. Its case-by-case behaviour is in `EvalLaws.EvalRules` and `EvalLaws.EvalAdd`, and its inverse in `EvalLaws.EvalQuote`. |
| `Checker.CheckRule` | src/expr.rs:31-37 | The direct checking rules accept only constants, never a sum, a name or an annotation, and never against a stuck type. |
| `Checker.Check` | src/expr.rs:31-48 | A `NotFound` failure comes only from a term that mentions a name. Its meaning is in `TypingLaws.CheckMeaning` and `TypingLaws.CheckErrors`, and what it guarantees about evaluation in `Safety.CheckedEval`. |
| `Checker.Infer` | src/expr.rs:50-80 | A `NotFound` failure comes only from a term that mentions a name. Its meaning is in `TypingLaws.InferSound`, `TypingLaws.InferAnn`, `TypingLaws.InferAdd` and `TypingLaws.InferVar`, and what it guarantees about evaluation in `Safety.InferredEval`. |
| `EvalLaws.EvalRules` | src/expr.rs:82-96 | Evaluation drops annotations and maps each atom to the matching value. A bound name gives its binding; an unbound name gives a stuck variable. |
| `EvalLaws.EvalAdd` | src/expr.rs:88 | A sum evaluates both operands and adds the values; an abort in either operand is passed on. |
| `EvalLaws.EvalQuoteNeutral` | src/value.rs:11-17 | Evaluating the quote of a stuck value gives the stuck value back. |
| `EvalLaws.EvalQuote` | src/value.rs:38-48 | `eval(quote(v), empty) = v` for every value, neutral ones included. |
| `EvalLaws.QuoteInjective` | src/expr.rs:41 | Two values have the same quote exactly when they are equal, so comparing quoted types decides type equality. |
| `EvalLaws.EvalExamples` | src/value.rs:71-75 | `2 + 3` is `5`. `1 + x` becomes the stuck sum `x + 1`. `INT_MAX + 1` overflows. `U(0) + Int` is `unreachable!()`. |
| `TypingLaws.CheckMeaning` | src/expr.rs:31-48 | Checking passes exactly when a direct rule applies or the synthesised type is the expected one. |
| `TypingLaws.InferSound` | src/expr.rs:38-46 | A synthesised type is one the term checks against. |
| `TypingLaws.CheckErrors` | src/expr.rs:38-46 | In the fallback, an inference error propagates unchanged; a different synthesised type is a `TypeMismatch`. |
| `TypingLaws.Cumulativity` | src/expr.rs:33 | `U(i)` checks against `U(j)` exactly when `i < j`. Below the top level the failure is a mismatch; at the top it is a synthesis failure. |
| `TypingLaws.InferUniverse` | src/expr.rs:66-78 | `U(i)` synthesises `U(i + 1)` for `i < 255`, and `U(255)` fails with the catch-all synthesis failure. |
| `TypingLaws.TypeFormers` | src/expr.rs:34-36 | `Int` and `Trivial` check against every universe, `U(0)` included, and against nothing else; both synthesise `U(0)`. |
| `TypingLaws.Literals` | src/expr.rs:35-37 | An integer literal checks only against `Int`, and `sole` only against `Trivial`. |
| `TypingLaws.InferAdd` | src/expr.rs:69-74 | A sum synthesises `Int` exactly when both operands check against `Int`, and it checks against no other type. The left operand's error comes first. |
| `TypingLaws.InferVar` | src/expr.rs:75 | A name synthesises the type its context entry records, or fails with `NotFound`. |
| `TypingLaws.InferAnn` | src/expr.rs:52-65 | An annotation synthesises the value of its type term under the context's known values. This holds exactly when the type term checks against `U(255)` and the term checks against that value; a failure of the first check is reported first. |
| `TypingLaws.CheckExamples` | src/expr.rs:31-80 | Concrete verdicts: `U(0) : U(1)`, not `U(1) : U(1)`, `2 + 3 : Int`, an unknown name, `sole` against `Trivial` and against `Int`, `5 : Int`. |
| `Safety.CheckedEval` | src/expr.rs:31-48 | In a context whose known values inhabit their types, a term that checks against `t` evaluates to an inhabitant of `t`, or overflows when `t` is `Int`. |
| `Safety.InferredEval` | src/expr.rs:50-80 | The same for a term that synthesises `t`. |
| `Safety.CheckNeverPanics` | src/expr.rs:52-65 | In such a context, checking never fails because evaluating an annotation's type aborted. |
| `Safety.InferNeverPanics` | src/expr.rs:52-65 | The same for synthesis. |
| `Safety.CheckedClosed` | src/expr.rs:75 | A term that checks in the empty context mentions no variable. |
| `Safety.InferredClosed` | src/expr.rs:75 | A term that synthesises in the empty context mentions no variable. |
| `Safety.AcceptedTermsEvaluate` | src/value.rs:71-75 | For a term accepted in the empty context, evaluation never reaches `unreachable!()`. Its value is not stuck (by the contract of `Checker.Eval`, since such a term has no names) and inhabits the inferred type. It aborts only by overflow, and only at type `Int`. |
| `Safety.ClosedIntIsLiteral` | src/value.rs:72 | A closed term of type `Int` evaluates to a literal or overflows. |
| `Parser.SkipSpace` | src/parser.rs:77-82 | `multispace0` leaves input that is empty or starts with a non-space. |
| `Parser.TrimEnd` | src/parser.rs:59 | Trimming the end keeps a prefix of the input that is empty or ends with a non-space. |
| `Parser.Trim` | src/parser.rs:59 | `str::trim` leaves input that is empty or both starts and ends with a non-space. `ParserLaws.TrimPadding` shows that whitespace around the input makes no difference. |
| `Parser.IdentRun` | src/parser.rs:20 | The length of the longest run of identifier characters. |
| `Parser.ParseName` | src/parser.rs:16-24 | A name is read exactly when the input starts with a letter or `_`. It is the longest run of letters, digits, `_` and `'`, and what follows cannot continue it. |
| `Parser.ParseI64` | src/parser.rs:32 | nom's `i64`: a successful read consumes input. |
| `Parser.ParseU8` | src/parser.rs:34 | nom's `u8`: a successful read consumes input. |
| `Parser.ParseUniverse` | src/parser.rs:33-36 | A universe literal consumes input. |
| `Parser.ParseGroup` | src/parser.rs:28 | A parenthesised expression consumes input. |
| `Parser.ParseKeyword` | src/parser.rs:29-31 | A keyword alternative succeeds exactly when the input starts with `Int`, `Trivial` or `sole`. It yields that constant and leaves what follows its display. |
| `Parser.ParseToken` | src/parser.rs:29-37 | The non-parenthesised alternatives consume input. |
| `Parser.ParseAtom` | src/parser.rs:27-38 | An operand consumes input. |
| `Parser.AddTail` | src/parser.rs:40-42 | The rest of a `+` chain never grows the input. |
| `Parser.ParseAdd` | src/parser.rs:26-43 | A `+` chain consumes input. |
| `Parser.ParseExpr` | src/parser.rs:45-53 | An expression consumes input. |
| `Parser.Parse` | src/parser.rs:55-68 | The line is trimmed and must be one expression with nothing left over. Its contract is carried by `ParserLaws.ParseShow`, `ParserLaws.Padding`, `ParserLaws.EmptyInput` and `ParserLaws.TrailingInput`. |
| `ParserLaws.TokenKeywords` | src/parser.rs:29-31 | `Int`, `Trivial` and `sole` are read as keywords whatever follows them. |
| `ParserLaws.KeywordNone` | src/parser.rs:29-31 | No keyword matches input that does not start with `I`, `T` or `s`. |
| `ParserLaws.I64Digits` | src/parser.rs:32 | nom's `i64` reads any unsigned digit run, leading zeros included, exactly when its value is at most the largest `i64`. |
| `ParserLaws.I64Signed` | src/parser.rs:32 | nom's `i64` reads `-` or `+` and any digit run exactly when the signed value fits in 64 bits. |
| `ParserLaws.TokenIntLit` | src/parser.rs:32 | The display of an `i64` literal is read back as that literal. |
| `ParserLaws.TokenUniverse` | src/parser.rs:33-36 | The display of a universe is read back as that universe. |
| `ParserLaws.NameFirst` | src/parser.rs:29-36 | On an identifier that does not start with a keyword, the keyword, integer and universe alternatives all fail. |
| `ParserLaws.NameRead` | src/parser.rs:16-24 | An identifier is read up to the first character that cannot continue it. |
| `ParserLaws.TokenVar` | src/parser.rs:37 | An identifier that does not start with a keyword is read back as that variable. |
| `ParserLaws.SimpleRoundTrip` | src/parser.rs:27-38 | Every one-token term is read back from its display. |
| `ParserLaws.OperandRoundTrip` | src/parser.rs:27-38 | An operand, including a parenthesised annotation of chains, is read back from its display. |
| `ParserLaws.ChainRoundTrip` | src/parser.rs:40-42 | A left-nested sum of operands is read back from its display. |
| `ParserLaws.ExprRoundTrip` | src/parser.rs:45-53 | A chain, or an annotation of one chain by another, is read back from its display followed by input that ends an expression. |
| `ParserLaws.ParseShow` | src/parser.rs:55-68 | `parse(display(e)) = e` for every term whose display is unambiguous. |
| `ParserLaws.SameDisplay` | src/parser.rs:55-68 | A term displayed like a printable term is read as the printable term. |
| `ParserLaws.LeftFold` | src/parser.rs:40-42 | Sums fold to the left: `a + (b + c)` is displayed and read back as `(a + b) + c`. Here `a` is any chain or annotation of chains, and `b` and `c` are tokens or annotations of chains. |
| `ParserLaws.SecondColon` | src/parser.rs:45-53 | A second unparenthesised `:` makes the parse fail, so the display of a nested annotation, either way nested, is rejected. |
| `ParserLaws.TwoColons` | src/parser.rs:45-53 | The line `a : b : c` for chains `a`, `b`, `c` is rejected. |
| `ParserLaws.ColonChains` | src/parser.rs:47 | After `a : b` the parser stops in front of a second ` : `. |
| `ParserLaws.Padding` | src/parser.rs:59 | Whitespace around the line makes no difference. |
| `ParserLaws.EmptyInput` | src/parser.rs:40 | A line of whitespace only, the empty line included, is rejected. |
| `ParserLaws.TrailingInput` | src/parser.rs:59 | All input must be read: a stray `)` after a term is rejected. |
| `ParserLaws.KeywordPrefix` | src/parser.rs:27-38 | An identifier starting with `Int`, `Trivial` or `sole` is rejected rather than read as a variable. |
| `ParserLaws.BareU` | src/parser.rs:33-37 | A bare `U` is the variable `U`. |
| `ParserLaws.UniverseDigits` | src/parser.rs:33-36 | The universe alternative reads `U(n)` exactly when `n <= 255`. Whitespace may follow `U` and stand inside the parentheses, and the digits may have leading zeros. |
| `ParserLaws.U8Digits` | src/parser.rs:34 | nom's `u8` reads any digit run, leading zeros included, exactly when its value is at most 255. |
| `ParserLaws.LevelTooLargeLine` | src/parser.rs:33-37 | The line `U(n)` with `n > 255` is rejected, with any whitespace after `U` and inside the parentheses. |
| `ParserLaws.LevelTooLarge` | src/parser.rs:33-37 | With a level above 255, the `U` is read as a variable, and the whitespace and parenthesis after it are left over. |
| `ParserLaws.LevelRange` | src/parser.rs:33-36 | The line `U(n)` is accepted, as the universe `n`, exactly when `n <= 255`. Any whitespace may follow `U` and stand inside the parentheses, and `n` may have leading zeros. |
| `ParserLaws.I64Literal` | src/parser.rs:32 | An optional `-` or `+` and any digit run are read as the signed value when it fits in 64 bits, and fail otherwise. |
| `ParserLaws.IntRange` | src/parser.rs:32 | A whole line that is a signed decimal literal, leading zeros allowed, is accepted exactly when its value is in the `i64` range. |
| `ParserLaws.SpacedPlus` | src/parser.rs:40 | Any whitespace, none included, may surround `+`. |
| `ParserLaws.SpacedColon` | src/parser.rs:47 | Any whitespace, none included, may surround `:`. |
| `ParserLaws.GroupSpaced` | src/parser.rs:28 | A parenthesised expression with whitespace just inside the parentheses is read as the expression. |
| `ParserLaws.SpacedParens` | src/parser.rs:28 | Any whitespace, none included, may stand just inside parentheses, which leave no trace in the term. |
| `ParserLaws.TokenLine` | src/parser.rs:59 | A line made of one token, followed by nothing or by input whose first non-space character is neither `+` nor `:`, is accepted exactly when nothing follows the token. |
| `ParserLaws.NoTokenLine` | src/parser.rs:27-38 | A line where no alternative applies is rejected. |
| `Repl.Handle` | src/main.rs:29-36 | A line produces a parse failure exactly when it does not parse. |
| `Repl.PanicOf` | src/main.rs:16 | The panic that escapes `handle`: one raised while evaluating the line, or while evaluating a type during inference. |
| `Repl.Respond` | src/main.rs:12-21 | The trimmed line `:q` or `:quit`, and only those, ends the loop normally. A panic while handling any other trimmed line ends the program. Every other line gets its answer and the loop goes on. |
| `Repl.QuitIsNotTerm` | src/main.rs:13-14 | The quit commands are not terms, so reserving them hides no input the parser accepts. |
| `Repl.ConstantReadsBack` | src/main.rs:33 | The printed value of a closed term is one token, and it reads back as itself. |
| `Repl.HandleAccepted` | src/main.rs:30-33 | For an accepted line there is no `unreachable!()`. The only abort is an overflow at type `Int`. Otherwise the output is the quoted value and type, and the value half reads back as itself. |
| `Repl.HandleTypeErrors` | src/main.rs:31 | A parsed line fails with a type error exactly when inference fails, and that error is never a panic. |
| `Repl.HandleNeverUnreachable` | src/main.rs:29-36 | Whatever the line, handling it never reaches `unreachable!()`. |
| `Repl.CrashIsOverflow` | src/value.rs:72 | The program ends through a panic only on an `i64` overflow, for a line that parses and has type `Int`. |

## Left out

- The loop itself: line editing, the async runtime and printing to the terminal. `Repl.Respond` models one round, and I/O is left to the caller. A panic is not caught in the source and ends the process; `Repl.Respond` returns it as the reply `Crash`.
- Error objects and their message texts. Type errors are the datatype `TypeMismatch | NotFound | SynthesisFailure | Panicked`. A parse failure is `None`, without nom's error position or code.
- `str::trim` removes Unicode whitespace. The model trims and skips only ASCII space, tab, carriage return and line feed, as `multispace0` does.
- The order in which a hash map is iterated to build the environment. A `map` has no order, and the result does not depend on it.
- The commented-out `Vars` iterator. It is dead code.
- Release builds wrap `i64` addition around. The model follows debug builds, where overflow panics, and reports the panic as the value `Overflow`.
- `Add for Expr`, `Add for Neutral` and the `From` conversions only build constructors. The model writes those constructors directly.
- `ParserLaws.ParseShow`: the round trip is proved for printable terms only. These are chains of operands and annotations of one chain by another, with names that are identifiers not starting with a keyword. For any term it does not hold, as `Syntax.ShowForgetsRightNesting`, `Syntax.ShowForgetsAnnNesting` and `ParserLaws.SecondColon` show.
- `Syntax.Show` and `Parser.Parse` have no contract of their own. What they promise is stated by the lemmas their rows name.
- `Value` has no equality in the source. The model's `Check` compares types only through their quotes. Equality of values appears only in lemmas.
- `ParserLaws.SpacedPlus` and `ParserLaws.SpacedColon` are stated for one-token operands. Whitespace around `+` and `:` inside longer terms follows from `SepStep` and `ColonStep`, which allow any whitespace.
- `Parser.ParseI64`: nom's `i64` also accepts a leading `+`, so `+5` parses as `5`. The model follows the library, not a reading that allows only `-`.
