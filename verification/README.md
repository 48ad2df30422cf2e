# xlsxto constraint checker, in Dafny

This project models the core of `xlsxto`, a tool that turns spreadsheet tables of typed
fields into Lua, Python, SQL and JSON data files. Each field may carry a constraint
expression in a small language of predicates: `empty`, `eq`, `gt`, `ge`, `lt`, `le`,
`range`, `len` and `expect`, combined with `not`, `and`, `or` and parentheses.

What is modelled:

- **The expression compiler.** `process_token` reads the token stream with two
  structures:
  - a build stack of checkers (the `CheckObj`);
  - a list of pending stack indices.

  A closing parenthesis runs the completion cascade `check_finished`. `generate_checker`
  adds the "no constraint" sentinels `""`, `c` and `~`.
- **The predicates.** Each leaf and `not` fills its parameter slots with `add_param` or
  its child slot with `add`. Each then tests a value, or, for `expect`, tests it against
  the whole dataset.
- **The dataset side.** The field predicates of `xlsx.rs`, the table containers, the
  lookup `has_field` and the global pass `check_xlsx_valid`.
- **The value normalisers** of the JSON, Lua, Python and SQL generators.

Modules:

| module | models |
|---|---|
| `Common` | verdicts (`Pass`, `Fail`, `Panic`), construction progress, panicking calls, the `f32` oracle |
| `Tokens` | the lexer's tokens |
| `Strings`, `Numbers` | the parts of Rust's `str` and `i32` behaviour used here |
| `EmptyCheck`, `EqCheck`, `GtCheck`, `RangeCheck`, `LengthCheck`, `ExpectFieldCheck` | one module per leaf predicate |
| `Checkers` | the closed `Checker` datatype: name lookup, `add_param`, `add`, `expect_more`, `test` |
| `CheckSet` | the folds over the roots |
| `CompileSpec` | the token loop and the cascade as functions on a `Build` (stack plus pending list) |
| `CheckObjects` | the `CheckObj` class and the imperative `process_token` / `check_finished` / `generate_checker`, proved against `CompileSpec` |
| `CompileFacts` | what given expressions compile to and accept, including the unit tests of `checker.rs` |
| `Dataset`, `Xlsx` | the loaded tables and the field and workbook operations |
| `Literals`, `JsonGenerator`, `LuaGenerator`, `PythonGenerator`, `SqlGenerator` | the generators' normalisers |

Conventions:

- A Rust `unwrap` that fails is a panic. It is written out as the outcome `Panic`,
  `Aborted` or `Panicked`.
- `f32` comparisons are supplied by an oracle parameter: the set of comparisons whose
  parse panics and the set of those that hold. Any assignment of verdicts to comparisons
  can be written this way. The model does not interpret them.
- In-place updates through `&mut` (`add_param`, `add`) are functions that return the
  updated value. `CheckObj` writes that value back into its stack, as `get_mut` does in
  place.

## Model

| member | source | states |
|---|---|---|
| `Checkers.FromNameShape` | src/checker.rs:60-73 | exactly the nine names build a checker; each builds one predicate node that expects a parameter unless it is `empty` |
| `Checkers.FromNameSize` | src/checker.rs:60-73 | a known name builds a single node |
| `Checkers.AddParamProtocol` | src/checker.rs:33-34 | `add_param` is not refused exactly when the node is a predicate still expecting a parameter; success keeps a single predicate node |
| `Checkers.AddProtocol` | src/checker/not.rs:44-59 | `add` succeeds exactly for a combinator still expecting a child; the tree grows by the child's size |
| `Checkers.LoadDefaults` | src/checker.rs:35-41 | only `expect` asks for a full load; every other checker passes the full-load test; `expect` passes every value in the local pass |
| `Checkers.NotInverts` | src/checker/not.rs:37-42 | a complete `not` passes exactly when its child fails, and panics exactly when its child panics |
| `Checkers.DoubleNegation` | src/checker/not.rs:37-42 | `not not c` gives the verdict of `c` on every value |
| `Checkers.AndOrMeaning` | src/checker.rs:86-123 | a complete `and` passes iff both children pass; a complete `or` passes iff neither child panics and one passes; either panics iff one of its children panics |
| `Checkers.IncompleteCombinatorFails` | src/checker/not.rs:37-42 | a combinator still missing a child fails every value |
| `EmptyCheck.Test` | src/checker/empty.rs:36-42 | `empty` passes exactly the values made only of whitespace |
| `EqCheck.AddParamProtocol` | src/checker/eq.rs:51-64 | the parameter is taken exactly while the slot is empty and is stored as given; a non-empty parameter closes the slot; it never panics |
| `EqCheck.TestIgnoresPadding` | src/checker/eq.rs:39-45 | whitespace around the value or around the expectation never changes the verdict |
| `GtCheck.AddParamProtocol` | src/checker/gt.rs:68-82 | the bound is taken exactly while it is missing, stored as given, and closes the slot when non-empty |
| `GtCheck.IntegerMeaning` | src/checker/gt.rs:97-129 | on an integer column, for `i32` bound and value, the verdict is the comparison of the numbers (`base < v` for `gt`, `base <= v` for `ge`, and the mirror for `lt`, `le`) |
| `GtCheck.IntegerVerdict` | src/checker/gt.rs:105-109 | whenever bound and value both parse as `i32`, the verdict is the comparison of the parsed numbers |
| `GtCheck.PassMeansHolds` | src/checker/gt.rs:54-62 | a pass needs a non-blank value, and either a `float` column or an `int` column where both numbers parse and satisfy the comparison |
| `GtCheck.MalformedValuePanics` | src/checker/gt.rs:106-107 | on an integer column, a non-blank value that is not an `i32` numeral panics |
| `RangeCheck.AddParamProtocol` | src/checker/range.rs:77-96 | parameters fill `start` then `end`, exactly while one is missing, and never panic |
| `RangeCheck.TwoParamsComplete` | src/checker/range.rs:84-96 | two non-empty parameters become the bounds, in order, and complete the range |
| `RangeCheck.IntegerVerdict` | src/checker/range.rs:43-53 | whenever value, start and end all parse as `i32`, the range passes iff `start <= v <= end` |
| `RangeCheck.IntegerMeaning` | src/checker/range.rs:43-71 | on an integer column, for `i32` numbers, the range passes iff `start <= v <= end` |
| `RangeCheck.PassMeansInside` | src/checker/range.rs:59-71 | a pass needs a non-blank value, and either a `float` column or three parsed numbers with the value between the bounds |
| `LengthCheck.AddParamProtocol` | src/checker/length.rs:60-78 | a parameter is taken exactly while a bound is unset, the minimum first; one that does not parse panics |
| `LengthCheck.MinusOneIsUnset` | src/checker/length.rs:60-78 | a parameter `-1` leaves its slot unset, so the next parameter (`5`) fills the minimum and the maximum is still expected |
| `LengthCheck.StringMeaning` | src/checker/length.rs:44-47 | on a `string` or `localize` column, `len` bounds the UTF-8 byte length |
| `LengthCheck.ArrayMeaning` | src/checker/length.rs:48-51 | on an array column, `len` bounds the number of comma-separated segments |
| `LengthCheck.WrapAround` | src/checker/length.rs:45-46 | the `usize as i32` cast wraps: a 2^32-byte value measures 0 and passes `len(0, 10)` |
| `ExpectFieldCheck.Unquote` | src/checker/expect_field.rs:58-70 | a stored parameter never holds a single quote |
| `ExpectFieldCheck.AddParamProtocol` | src/checker/expect_field.rs:50-70 | parameters fill the table then the field, exactly while one is missing; what is stored holds no single quote |
| `ExpectFieldCheck.QuotedName` | src/checker/expect_field.rs:58-64 | `'Item'` is stored as `Item` |
| `ExpectFieldCheck.QuotesOnlyLeaveSlotEmpty` | src/checker/expect_field.rs:58-64 | a parameter made only of quotes leaves the slot empty |
| `ExpectFieldCheck.CompleteMeaning` | src/checker/expect_field.rs:76-82 | a complete `expect` passes the full-load test exactly when `has_field` finds the value |
| `Numbers.ParseI32` | src/checker/gt.rs:106-107 | a parsed `i32` lies in range, and its text starts with a digit or a sign and ends with a digit |
| `Numbers.ParseFormat` | src/checker/gt.rs:106-107 | parsing the decimal spelling of any `i32` gives it back |
| `Numbers.AsI32` | src/checker/length.rs:45-49 | `usize as i32` keeps the low 32 bits: the result is an `i32` congruent to the input modulo 2^32 |
| `CheckSet.TestAllConjunction` | src/checker.rs:236-243 | `CheckObj::test` passes exactly when every root passes |
| `CheckSet.TestAllFirstFailure` | src/checker.rs:236-243 | when the set does not pass, its verdict is that of the first root that does not pass |
| `CheckSet.EmptySetAcceptsAll` | src/checker.rs:210-213 | the empty set passes every value and the full-load test, never asks for a full load, and is ready |
| `CompileSpec.CombineRule` | src/checker.rs:86-123 | `and`/`or` fail exactly on an empty stack; otherwise they keep the stack length, wrap the last checker as the left operand, and push `len-1` as pending |
| `CompileSpec.OpenAndCommaRule` | src/checker.rs:127-133 | `(` and `,` succeed iff something is pending, and change nothing |
| `CompileSpec.CloseRule` | src/checker.rs:134-150 | `)` succeeds only when something is pending and the checker at the popped index is ready; it then runs the cascade |
| `CompileSpec.ForeignTokensFail` | src/checker.rs:75-194 | an unknown name, another keyword, another punctuation mark and any other token all fail |
| `CompileSpec.ParamRule` | src/checker.rs:165-192 | numerals and string literals act alike; they fail on an empty stack or pending list; on success they replace the top pending checker by its `add_param` result and change nothing else |
| `CompileSpec.CascadeStops` | src/checker.rs:307-341 | a successful cascade ends with nothing pending or with the top pending index equal to the stack length, and grows neither list |
| `CompileSpec.CascadeNeverPanics` | src/checker.rs:307-341 | the cascade never panics |
| `CompileSpec.CascadeKeepsNodes` | src/checker.rs:307-341 | the cascade only moves checkers into checkers: the node count is unchanged |
| `CompileSpec.StepKeepsNodes` | src/checker.rs:78-194 | each token adds exactly the nodes it creates |
| `CompileSpec.CombineKeepsNodes` | src/checker.rs:86-123 | `and`/`or` add exactly one node |
| `CompileSpec.ParamKeepsNodes` | src/checker.rs:165-192 | a parameter adds no node |
| `CompileSpec.RunKeepsNodes` | src/checker.rs:75-201 | the token loop builds exactly one node per name and per `not`/`and`/`or` |
| `CompileSpec.CompileKeepsNodes` | src/checker.rs:195-200 | a compiled set holds one node per node-creating token, and every root is ready |
| `CheckObjects.CheckObj.constructor` | src/checker.rs:230-234 | a new object holds no roots |
| `CheckObjects.CheckObj.Add` | src/checker.rs:272-274 | pushes a root at the end |
| `CheckObjects.CheckObj.Pop` | src/checker.rs:276-278 | removes and returns the last root, or `None` when there is none |
| `CheckObjects.CheckObj.Put` | src/checker.rs:264-266 | replaces the root at an index, the write through `get_mut` |
| `CheckObjects.CheckObj.IsAllReady` | src/checker.rs:297-305 | true iff no root expects more |
| `CheckObjects.CheckObj.Test` | src/checker.rs:236-243 | the early-exit loop computes the conjunction of the roots' verdicts |
| `CheckObjects.CheckObj.TestOnAllLoad` | src/checker.rs:245-252 | the early-exit loop computes the conjunction of the roots' full-load tests |
| `CheckObjects.CheckObj.NeedFullLoad` | src/checker.rs:254-262 | the early-exit loop computes the disjunction of the roots' `need_full_load` |
| `CheckObjects.CheckObj.CheckFinished` | src/checker.rs:307-341 | the cascade loop succeeds exactly when the cascade function does, and leaves the stack and pending list it computes |
| `CheckObjects.ProcessOne` | src/checker.rs:78-194 | one arm of the token match updates the stack and pending list exactly as `Step` says, or reports its failure or panic |
| `CheckObjects.AddParamAtTop` | src/checker.rs:165-192 | the numeral and literal arms give the stack and pending list of `Param` |
| `CheckObjects.ProcessToken` | src/checker.rs:75-201 | returns true iff the token loop succeeds and every root is ready, panics iff the loop panics, and leaves the loop's stack |
| `CheckObjects.GenerateChecker` | src/checker.rs:203-227 | the sentinels give an empty set without lexing; otherwise it succeeds iff the expression compiles, and keeps the compiled roots |
| `CompileFacts.NameStep` | src/checker.rs:154-163 | a known name pushes its checker and its index |
| `CompileFacts.ParamStep` | src/checker.rs:165-178 | an accepted parameter replaces the checker at the top pending index |
| `CompileFacts.CloseLastStep` | src/checker.rs:134-150 | `)` after a ready last checker whose index alone is pending empties the pending list |
| `CompileFacts.CloseIntoParent` | src/checker.rs:307-341 | `)` after a ready child attaches it to its pending parent, and the cascade pops the parent once complete |
| `CompileFacts.CloseWithNothingPending` | src/checker.rs:134-137 | `)` with nothing pending stops the compile |
| `CompileFacts.CallAbove` | src/checker.rs:154-178 | `n(p` above a pending parent pushes the checker above it with its parameter |
| `CompileFacts.CallOpening` | src/checker.rs:154-178 | `n(p` at the start pushes the checker with its first parameter |
| `CompileFacts.NotWithoutParensCompiles` | src/checker.rs:134-150 | `not gt(1)` compiles to one `not` root around `gt(1)` |
| `CompileFacts.NotWithParensRejected` | src/checker.rs:134-137 | `not(gt(1))` is rejected, because the outer `)` finds nothing pending |
| `CompileFacts.UnclosedCallCompiles` | src/checker.rs:195-200 | `gt(1` compiles like `gt(1)`, because the pending list need not end empty |
| `CompileFacts.OneParamCall` | src/checker.rs:75-201 | `n(p)` compiles to the one checker holding `p` |
| `CompileFacts.SecondParamClosing` | src/checker.rs:127-150 | `, q)` gives the second parameter and closes the call |
| `CompileFacts.TwoParamCall` | src/checker.rs:75-201 | `n(p, q)` compiles to the one checker holding both parameters |
| `CompileFacts.OrderCall` | src/checker.rs:60-73 | `gt`/`ge`/`lt`/`le` with one bound compile to one root holding that bound |
| `CompileFacts.RangeCall` | src/checker.rs:60-73 | `range(a, b)` compiles to one root holding both bounds |
| `CompileFacts.OrderOnInts` | src/checker/gt.rs:97-112 | an ordering root on an `int` column decides by the comparison of the numbers |
| `CompileFacts.RangeRoot` | src/checker.rs:236-243 | a single `range` root decides as the range predicate does |
| `CompileFacts.RangeOnFloatColumn` | src/checker/range.rs:59-65 | on a `float` column a non-blank value goes to the `f32` comparison |
| `CompileFacts.RangeOnInts` | src/checker/range.rs:66-68 | a `range` root on an `int` column passes iff `start <= v <= end` |
| `CompileFacts.GtTwelve` | src/checker.rs:349-366 | `gt(12)` on `int` compiles and passes exactly the numbers above 12 |
| `CompileFacts.LtTwelve` | src/checker.rs:369-386 | `lt(12)` on `int` compiles and passes exactly the numbers below 12 |
| `CompileFacts.RangeTenToHundred` | src/checker.rs:389-406 | `range(10, 100)` on `int` compiles and passes exactly 10 to 100 inclusive |
| `CompileFacts.RangeOnFloats` | src/checker.rs:407-428 | `range(10, 100)` on `float` compiles and hands every non-blank value to the `f32` comparison |
| `CompileFacts.LenTwoFourParams` | src/checker/length.rs:67-78 | the parameters of `len(2, 4)` become its bounds, in order |
| `CompileFacts.LenTwoFourCompiles` | src/checker.rs:432-437 | `len(2, 4)` compiles to one root with both bounds, for any column type |
| `CompileFacts.LenRoot` | src/checker.rs:236-243 | a single `len` root passes iff the length predicate holds |
| `CompileFacts.LenOnArrays` | src/checker.rs:433-446 | `len(2, 4)` on `int[]` passes exactly the values with two to four comma-separated segments |
| `CompileFacts.LenOnStrings` | src/checker.rs:448-461 | `len(2, 4)` on `string` passes exactly the values of two to four UTF-8 bytes |
| `CompileFacts.EqParts` | src/checker/eq.rs:58-64 | `eq` builds empty and a non-empty parameter completes it |
| `CompileFacts.EqMeaning` | src/checker/eq.rs:39-45 | `eq` with a trimmed expectation passes exactly the values equal to it once trimmed, and never panics |
| `CompileFacts.EqCall` | src/checker.rs:154-192 | `eq(x)` compiles to one `eq` root holding `x` |
| `CompileFacts.EqTwo` | src/checker.rs:466-481 | `eq(2)` compiles and passes exactly the values that trim to `2` |
| `CompileFacts.CombineSingle` | src/checker.rs:86-123 | `and`/`or` after one root make it the left operand and mark the combinator pending |
| `CompileFacts.EqIntoOr` | src/checker.rs:134-150 | `eq(y)` above a pending `or` becomes its right operand and completes it |
| `CompileFacts.OrEqRun` | src/checker.rs:105-150 | `or eq(y)` after a finished root builds a complete `or` |
| `CompileFacts.CompileInTwo` | src/checker.rs:195-200 | two successive runs that end with every root ready compile |
| `CompileFacts.EqOrCompiles` | src/checker.rs:484-490 | `eq(x) or eq(y)` compiles to one complete `or` root |
| `CompileFacts.EqTwoOrThreeCompiles` | src/checker.rs:484-490 | `eq(2) or eq(3)` on `int` compiles to one complete `or` root |
| `CompileFacts.EqOrMeaning` | src/checker.rs:105-123 | a complete `or` of two `eq` passes exactly the values equal to one of the two expectations once trimmed |
| `CompileFacts.EqTwoOrThreeTest` | src/checker.rs:491-495 | the compiled `eq(2) or eq(3)` passes exactly the values that trim to `2` or `3` |
| `CompileFacts.BareParamAnd` | src/checker.rs:86-103 | in `eq 1 and`, the bare `1` completes `eq` but leaves its index pending under the `and`'s |
| `CompileFacts.BareParamSecondCall` | src/checker.rs:154-178 | `eq(2` after that is pushed above the `and` |
| `CompileFacts.BareParamPrefix` | src/checker.rs:75-194 | the first six tokens of `eq 1 and eq(2)` give that stack and pending list |
| `CompileFacts.BareParamClose` | src/checker.rs:307-341 | the closing `)` completes the `and` and then meets the stale index, so it fails |
| `CompileFacts.BareParamThenAndRejected` | src/checker.rs:75-201 | `eq 1 and eq(2)` is rejected |
| `Xlsx.NewField` | src/xlsx.rs:44-55 | a new field is invalid, is not a key, and passes every value |
| `Xlsx.IsValid` | src/xlsx.rs:122-124 | passes exactly when every root of the field's check set passes |
| `Xlsx.NeedFullLoad` | src/xlsx.rs:126-128 | true exactly when some root is an `expect` |
| `Xlsx.IsValidOnAllLoad` | src/xlsx.rs:130-132 | true exactly when every root passes its full-load test |
| `Xlsx.AdoptChecks` | src/xlsx.rs:196-206 | a compiled set replaces the field's checks; a rejected expression leaves them as they were; a panic ends the load |
| `Xlsx.FailedConditionAcceptsAll` | src/xlsx.rs:196-206 | a new field whose expression is rejected accepts every value and never asks for a full load |
| `Xlsx.ExpectFieldMeaning` | src/xlsx.rs:126-132 | a field with one complete `expect` needs a full load and passes it exactly when `has_field` finds the value |
| `Xlsx.KeyBySubstring` | src/xlsx.rs:57-64 | a name holding `KEY` anywhere is a key |
| `Xlsx.KeyWithoutCapitalK` | src/xlsx.rs:57-64 | without a capital `K`, only `id`, `Id` and `ID` are keys |
| `Xlsx.FieldFilters` | src/xlsx.rs:66-72 | no name or no type makes a field invalid; the remark test ignores the target |
| `Xlsx.XLSX.constructor` | src/xlsx.rs:145-150 | a new table has no fields and no rows |
| `Xlsx.XLSX.AddField` | src/xlsx.rs:152-154 | appends a field and leaves the rows |
| `Xlsx.XLSX.AddRow` | src/xlsx.rs:156-158 | appends a row and leaves the fields |
| `Xlsx.CellAt` | src/xlsx.rs:291 | a cell exists exactly when the row is long enough |
| `Xlsx.Report` | src/xlsx.rs:288-303 | the reported line is 5 plus the row's zero-based index, with the field's name |
| `Xlsx.FindInTable` | src/xlsx.rs:329-345 | the scan finds a value iff some column with that name has a row whose cell, trimmed, equals the trimmed value |
| `Xlsx.FindInColumn` | src/xlsx.rs:335-341 | the row scan stops at a row whose cell, trimmed, equals the trimmed value, and runs to the end exactly when the column holds no such cell |
| `Xlsx.ALLXLSX.constructor` | src/xlsx.rs:254-258 | no tables at first |
| `Xlsx.ALLXLSX.Add` | src/xlsx.rs:260-262 | stores the table under its name, replacing any earlier one, and keeps the others |
| `Xlsx.ALLXLSX.HasField` | src/xlsx.rs:327-349 | is the dataset lookup `has_field`, and false for a missing table |
| `Xlsx.ALLXLSX.CheckWorkbook` | src/xlsx.rs:284-320 | one table is valid iff no cell breaks a full-load constraint; otherwise the first offence in field-then-row order is reported |
| `Xlsx.ALLXLSX.CheckXlsxValid` | src/xlsx.rs:282-325 | succeeds exactly when no loaded table has an offending cell; otherwise it reports the first offence of some table |
| `JsonGenerator.ReplaceJsonBr` | src/generator/json_generator.rs:32-37 | the output holds no carriage return and no raw newline |
| `JsonGenerator.CleanTextUnchanged` | src/generator/json_generator.rs:33-36 | text without `\r`, `\n` and backslash-`n` is unchanged |
| `JsonGenerator.Idempotent` | src/generator/json_generator.rs:32-37 | escaping twice is escaping once |
| `JsonGenerator.TypeDefaultValue` | src/generator/json_generator.rs:40-52 | a non-blank cell is kept; a blank one becomes `0`, `""` or `nil`, never blank |
| `JsonGenerator.StripBrackets` | src/generator/json_generator.rs:64 | no square bracket is left |
| `JsonGenerator.Elements` | src/generator/json_generator.rs:64-66 | one element per comma plus one, none holding a bracket or a comma |
| `JsonGenerator.QuoteAll` | src/generator/json_generator.rs:66-76 | element `k` of the result is element `k` of the array written by the element rule (bare when it holds `"`, quoted otherwise), for every `k` |
| `JsonGenerator.NormalizeValues` | src/generator/json_generator.rs:54-103 | the appending code computes the normal form `Normalized` |
| `JsonGenerator.WriteStringArray` | src/generator/json_generator.rs:61-77 | a `string[]` cell is its written elements joined by commas, in brackets |
| `JsonGenerator.WriteQuoted` | src/generator/json_generator.rs:62-77 | the loop with its changing prefix joins the written elements with commas |
| `JsonGenerator.AppendElement` | src/generator/json_generator.rs:67-75 | one iteration appends the prefix and the element, bare when it holds `"` and quoted otherwise |
| `JsonGenerator.WritePlainArray` | src/generator/json_generator.rs:87-97 | another array cell is its elements joined by commas, in brackets |
| `JsonGenerator.ArrayShape` | src/generator/json_generator.rs:61-97 | an array cell is written between brackets, with one element per comma plus one |
| `JsonGenerator.PlainArrayText` | src/generator/json_generator.rs:87-97 | a non-string array cell comes out as its bracket-free text in new brackets |
| `JsonGenerator.ScalarDefault` | src/generator/json_generator.rs:98-100 | any other cell goes through the default: kept when not blank, never blank |
| `JsonGenerator.StringScalar` | src/generator/json_generator.rs:78-86 | a `string` scalar is always written between double quotes |
| `JsonGenerator.StringArrayOfOne` | src/generator/json_generator.rs:61-77 | a one-element `string[]` cell is that element, written, in brackets |
| `JsonGenerator.ScalarQuotedTwice` | src/generator/json_generator.rs:79 | `"a"` as a `string` is written `""a""`, but as a `string[]` it is written `["a"]` |
| `JsonGenerator.ScalarMatchesSingletonArray` | src/generator/json_generator.rs:66-86 | with the quote test on the value, a scalar is written as the one element of the matching array |
| `JsonGenerator.IntendedKeepsQuotes` | src/generator/json_generator.rs:79-80 | with the quote test on the value, `"a"` is written as it is |
| `Literals.TypeDefaultValue` | src/generator/lua_generator.rs:53-65 | a non-blank cell is kept; a blank cell of an unknown type gets the unknown value, and otherwise a non-blank default |
| `Literals.ArrayDefault` | src/generator/lua_generator.rs:92-95 | an array type always gets the unknown value for a blank cell |
| `Literals.GetSpaceStr` | src/generator/lua_generator.rs:67-76 | returns exactly `n` spaces |
| `Literals.Braces` | src/generator/lua_generator.rs:92-93 | no square bracket is left after the rewriting |
| `Literals.QuotedKey` | src/generator/lua_generator.rs:78-84 | a `string` key is the delimited text with one space on each side, so it trims to the delimited text; any other key is kept |
| `Literals.RepeatedCloser` | src/generator/lua_generator.rs:108-110 | a closer of one repeated character first occurs at the end iff the text neither holds it nor ends with that character |
| `Literals.ShortCloser` | src/generator/lua_generator.rs:102-107 | a quote closes a one-line form at the end iff the text does not hold it |
| `Literals.ShortLiteralIff` | src/generator/lua_generator.rs:115-121 | a one-line form with quote `q` reads back iff the text holds neither `q` nor a line break |
| `LuaGenerator.TransferLuaKeyword` | src/generator/lua_generator.rs:38-51 | the nine reserved words become `['word']`, every other name is kept, and the result is never reserved |
| `LuaGenerator.TransferInjective` | src/generator/lua_generator.rs:38-51 | names without `[` are never written alike |
| `LuaGenerator.EscapedNameCollides` | src/generator/lua_generator.rs:38-51 | `end` and `['end']` are written alike |
| `LuaGenerator.DefaultValue` | src/generator/lua_generator.rs:53-65 | a non-blank cell is kept; a blank one becomes `0`, `''` or `nil` |
| `LuaGenerator.NormalizeKeyValue` | src/generator/lua_generator.rs:78-84 | a `string` key is ` [[v]] `: it trims to `[[v]]` and starts and ends with a space; any other key is kept |
| `LuaGenerator.KeyReadsBack` | src/generator/lua_generator.rs:78-84 | the long-bracket key reads back iff the cell holds no `]]` and does not end with `]` |
| `LuaGenerator.NormalizeNonkeyValue` | src/generator/lua_generator.rs:86-131 | the flag-setting code picks what `NonkeyValue` says |
| `LuaGenerator.NewLineChars` | src/generator/lua_generator.rs:111-113 | the line-break flag is set iff the cell holds `\n` or `\r` |
| `LuaGenerator.StringLiteralReadsBack` | src/generator/lua_generator.rs:97-128 | the chosen quoting reads back as the cell, and the generator panics exactly when none of the three forms it tries (`"v"`, `'v'`, `[[v]]`) reads back as the cell |
| `LuaGenerator.ArraysUseBraces` | src/generator/lua_generator.rs:92-95 | arrays are tested first: braces replace brackets, then the default applies, and no bracket is left |
| `PythonGenerator.DefaultValue` | src/generator/python_generator.rs:35-47 | a non-blank cell is kept; a blank one becomes `0`, `''` or `None` |
| `PythonGenerator.NormalizeKeyValue` | src/generator/python_generator.rs:60-66 | a `string` key is ` '''v''' `: it trims to `'''v'''` and starts and ends with a space; any other key is kept |
| `PythonGenerator.KeyReadsBack` | src/generator/python_generator.rs:60-66 | the triple-quoted key reads back iff the cell holds no `'''` and does not end with `'` |
| `PythonGenerator.NormalizeNonkeyValue` | src/generator/python_generator.rs:68-106 | the flag-setting code picks what `NonkeyValue` says |
| `PythonGenerator.StringLiteralReadsBack` | src/generator/python_generator.rs:94-102 | the chosen quoting reads back iff a one-line form fits or the cell fits in triple quotes |
| `PythonGenerator.UnreadableCellWritten` | src/generator/python_generator.rs:98-102 | a cell that none of the three forms the generator tries (`"v"`, `'v'`, `'''v'''`) can hold, such as `"x'`, is still written, as text that does not read back |
| `PythonGenerator.ArraysUseBraces` | src/generator/python_generator.rs:74-77 | arrays are tested first: braces replace brackets, then the default applies |
| `PythonGenerator.LocalizeNotQuoted` | src/generator/python_generator.rs:79-105 | a `localize` type without `string` is not quoted: raw when not blank, `None` when blank |
| `SqlGenerator.DefaultValue` | src/generator/sql_generator.rs:35-47 | a non-blank cell is kept; a blank one becomes `0`, `''` or `None` |
| `SqlGenerator.NormalizeKeyValue` | src/generator/sql_generator.rs:49-55 | a `string` key is ` '''v''' `: it trims to `'''v'''` and starts and ends with a space; any other key is kept |
| `SqlGenerator.NormalizeNonkeyValue` | src/generator/sql_generator.rs:57-89 | an array cell is `'v'`; a `string` cell is `v` between two equal quote characters, `"` or `'` |
| `SqlGenerator.StringQuoting` | src/generator/sql_generator.rs:67-86 | a cell without `"` is written exactly `"v"`, which reads back from double quotes unless it breaks lines; a cell with `"` is written `'v'`, which reads back iff it holds no `'` |
| `SqlGenerator.ArrayCellsQuoted` | src/generator/sql_generator.rs:63-65 | an array cell reads back from its single quotes iff it holds no `'` |
| `SqlGenerator.XlsxTypeToMysqlType` | src/generator/sql_generator.rs:91-98 | the column type is one of the four |
| `SqlGenerator.MysqlTypes` | src/generator/sql_generator.rs:91-98 | only the exact names `int`, `long`, `float` get a numeric type, each its own |
| `SqlGenerator.ColumnLines` | src/generator/sql_generator.rs:113-121 | one column line per field, in order |
| `SqlGenerator.GetCreateTableSql` | src/generator/sql_generator.rs:100-136 | the appending loop computes the definition `CreateTableSql` |
| `SqlGenerator.CreateTableFrame` | src/generator/sql_generator.rs:104-134 | the definition starts with the header and ends with `\n);\n` |
| `SqlGenerator.PrimaryKeyClause` | src/generator/sql_generator.rs:107-131 | a PRIMARY KEY clause listing the key names appears exactly when the key count is positive |
| `SqlGenerator.NotNullIffKey` | src/generator/sql_generator.rs:114-119 | a column line ends with ` NOT NULL` iff its field is a key |
| `SqlGenerator.KeyNamesExact` | src/generator/sql_generator.rs:122-125 | the key list holds the back-quoted name of every key field and nothing else |
| `SqlGenerator.AppendColumn` | src/generator/sql_generator.rs:113-121 | one more field adds its column line after the separator |
| `SqlGenerator.KeyNamesStep` | src/generator/sql_generator.rs:122-125 | one more field extends the key list by its back-quoted name exactly when it is a key |
| `SqlGenerator.AppendKey` | src/generator/sql_generator.rs:122-125 | one more key field adds its back-quoted name to the key list |

## Left out

- The lexer (`lex_lua`) is a foreign crate. Tokens are the input of `CompileSpec.Compile`. `CheckObjects.GenerateChecker` takes the lexer as a function parameter.
- The bodies of `and.rs`, `or.rs` and `lt.rs` are not part of this model. The model gives them the following behaviour:
  - `and` and `or` take a left and then a right child, and fail while either is missing.
  - Both evaluate both children and combine the two verdicts. `and.rs` and `or.rs` are not available, so this evaluation order is an assumption of the model.
  - A panic in either child propagates, whichever child a short-circuit would have skipped.
  - They keep the trait's defaults for `need_full_load` and `test_on_all_load`.
  - `lt`/`le` mirror `gt`/`ge` with the comparison reversed.
- `f32` parsing and comparison (`gt.rs`, `range.rs`) are an uninterpreted oracle. Only the integer domain is interpreted.
- Panics are outcomes, not process aborts. Error messages, their Chinese text, their escaping, and `get_project_name` are left out. Errors are the values `Refused`, `Invalid`, `Panicked`.
- `XLSX::parse_from_file` reads workbooks through calamine and is not part of this model. The one fact kept from it is how a compiled check set is adopted (`Xlsx.AdoptChecks`).
- The `generate` methods of the four generators, `ALLXLSX::gen` and `check_lua_file_valid` are file output and an embedded Lua VM, so they are left out.
- `XLSX::key_num` is not part of this model. `SqlGenerator.GetCreateTableSql` takes the key count as a parameter.
- The getters and setters of `XlsTabField` and `XLSX` are plain field access.
- `add_param` and `add` update a checker in place through `&mut`. Here they return the updated checker, and `CheckObj.Put` writes it back. No aliasing is modelled, since every `Box` has a single owner.
- `Literals.GetSpaceStr`: it is shared by the Lua and Python generators. It takes a `nat`, not a `u32`.
- `Literals.Delimits` reads a delimited text up to the first closing delimiter. It does not model escape sequences, nor Lua's dropping of a newline right after `[[`.
- The SQL key form ` '''v''' ` is modelled by its shape only. It is not a SQL quoting, so no read-back property is stated.
- `JsonGenerator.NormalizeValues`, `PythonGenerator.NormalizeNonkeyValue` and `SqlGenerator.NormalizeNonkeyValue` return plain strings. The source wraps them in a `Result` that is never an error. `LuaGenerator.NormalizeNonkeyValue` returns an `Outcome` for its panic.
- `CheckObjects.CheckObj.CheckFinished`: on failure it does not state what is left in the stack. `process_token` then returns false and the stack is dropped.
- `CheckObjects.ProcessToken`: after a failing or panicking token it does not state what is left in the stack. The caller drops it.
- `CheckObjects.GenerateChecker`: on failure it does not state what is left in the returned object. The source returns an error instead.
- `Xlsx.ALLXLSX.CheckXlsxValid`: it reports an offence of some table, not of a particular one. The source scans a `HashMap`, whose order is unspecified.
- Two behaviours of the code that differ from what one might expect:
  - Compilation requires only that every root is ready at the end, not that the pending list is empty. So `gt(1` and `eq 1` compile.
  - The JSON `type_default_value` has a `string` arm that writes `""`. `normalize_values` never reaches it, because `string` types are handled before the default.

## Findings

| source | as written | input that shows it | evidently intended | confidence | as-written member | corrected member |
|---|---|---|---|---|---|---|
| src/generator/json_generator.rs:79 | the test for a double quote reads the output buffer `ret_value`, which is still empty, so a `string` scalar is always wrapped in double quotes | the `string` cell `"a"` is written `""a""`, while the same cell in a `string[]` column is written `["a"]` | test the cell `value`, as the array branch does per element, so a cell that already holds a quote is written bare | not executed | `JsonGenerator.ScalarQuotedTwice` | `JsonGenerator.ScalarMatchesSingletonArray` |
