# N4 front end in Dafny

N4 is a small compiled language. Its front end is a pipeline of three
stages, each deterministic and single-threaded:

- **Tokenizer** (`tokenizer.py`). One left-to-right scan over the source
  with a cursor. Maximal-munch readers take identifiers and numbers, a `;`
  comment is skipped up to the next newline, and one-character operators
  and parentheses are looked up in tables. A second pass turns identifier
  tokens whose text is a keyword or a type name into keyword or type-name
  tokens.
- **Parser** (`parser.py`). A recursive-descent parser over a token array,
  with a cursor `idx` and a list of collected `errors`. The expression
  grammar climbs precedence: comparison, then addition, then factor, then
  unary, then primary. Statements and function definitions build an AST.
  A failing production raises `ParserException`. A body catches it,
  records it and calls `recover`. The top level catches it and records it,
  but does not recover.
- **Semantic analyzer** (`semantic_analyzer.py`). A post-order walk over the
  AST with a stack of scopes, innermost last. Names resolve innermost
  first and are defined in the innermost scope only. `if`, `while` and
  function bodies each push one scope and pop it afterwards. Each name is
  reported at most once ("used before definition" or "redefinition").
  Resolved types are written onto the nodes.

## How the model is organised

| module | file | content |
|---|---|---|
| `Wrappers` | `wrappers.dfy` | `Option`, `Result`, and `Raised`, the attribute error the source raises at parser.py:44 and semantic_analyzer.py:112 (the third, at tokenizer.py:98, is modelled as `None`) |
| `Tokens` | `tokens.dfy` | token kinds, tokens, the operator, structure, keyword and type-name tables |
| `Types` | `types.dfy` | the type table (`Type.size_map`, `literal_to_type`, `literal_is_signed`, `PointerType`) |
| `Tokenizer` | `tokenizer.dfy` | class `Tokenizer` (readers, keyword pass, `tokenize` loop) proved against `Scan` and `ResolveAll` |
| `Ast` | `ast.dfy` | the AST; the analyzer's annotations are optional fields |
| `ParserSpec` | `parser_spec.dfy` | the parser as functions of `(tokens, position, errors)` |
| `Parser` | `parser.dfy` | class `Parser`: every `parse_*` method proved equal to its `ParserSpec` function |
| `ParserProperties` | `parser_properties.dfy` | grouping and precedence, recovery, and when the top-level loop stalls |
| `AnalyzerSpec` | `analyzer_spec.dfy` | the analyzer as functions from a state `(scopes, reports, reported)` to an annotated node and a new state |
| `Analyzer` | `analyzer.dfy` | class `SemanticAnalyzer`: every method proved equal to its `AnalyzerSpec` function |
| `AnalyzerProperties` | `analyzer_properties.dfy` | scoping, reporting and annotation properties |

Decisions that shape the model:

- **Exceptions become results.** A raised `ParserException` is an
  `Err(ParseError)` that carries the cursor position where it was raised.
  `recover` depends on that position.
- **The parser's input.** The parser works on a `WellFormed` token array:
  it ends with an EOF token, and every type-name token names an entry of
  the size table. EOF is never consumed, so `peek(1)` and `self.peek()`
  never run past the array.
- **The token-kind enumeration.** The parser uses token kinds that
  `tokenizer.py` does not define: newline, EOF, comma, the four comparisons,
  ampersand and the type-name kind. `tokens.dfy` has a single enumeration
  covering all of them.
- **Non-termination of `parse_program`.** With the exception constructor
  corrected (see Findings, parser.py:44), `parse_program` loops forever
  when a top-level statement raises without consuming a token. As
  written, the first raise already fails with an attribute error that no
  handler catches, so the parse ends there instead. Each round
  of the loop depends only on the cursor, so once it stalls it repeats the
  same error forever. `ParserSpec.ProgramLoop` reports that case as a
  `Diverges` outcome, which carries the position and the repeated error.
  No fuel is needed.
- **Annotations.** The analyzer writes `dtype` and `type` onto nodes in
  place. The model returns an annotated copy of the tree instead, together
  with the new analyzer state.

## Model

| member | source | states |
|---|---|---|
| Types.LiteralToType | parser.py:70-76 | the type built for a table name is a basic type that carries that name |
| Types.LiteralIsSigned | parser.py:78-80 | the flag is set only for names of the size table that carry the `u` prefix; `LiteralToTypeTable` gives the converse |
| Types.LiteralToTypeTable | parser.py:48-80 | a table type has the size the size table gives its name; its `signed` flag is set exactly for the `u`-prefixed names |
| Types.IntIsFlaggedUnsigned | parser.py:78-80 | as written, `int` gets `signed` false and `uint` gets `signed` true |
| Types.IntendedSigned | parser.py:78-80 | corrected flag: signed exactly when the name lacks the unsigned `u` prefix |
| Types.PointerType | parser.py:89-92 | a pointer type has size 8, is unsigned, and is named `ptr<base>` |
| Tokenizer.RunEnd | tokenizer.py:68-85 | the readers' stopping point: every character before it is in the class, and the character at it is not (or it is the end of input) |
| Tokenizer.WrittenRunEnd | tokenizer.py:68-85 | as written, a reader that returns stops at a character outside its class; `WrittenRunEndFailsAtEnd` states exactly when it raises |
| Tokenizer.WrittenRunEndFailsAtEnd | tokenizer.py:68-85 | the index-first readers as written fail exactly when the run reaches the end of the input, and otherwise stop where the bounded reader stops |
| Tokenizer.IdentifierAtEndFails | tokenizer.py:68-73 | the source `x` makes the written identifier reader fail, while the bounded one reads `x` |
| Tokenizer.OperatorToToken | tokenizer.py:87-88 | the token has the operator table's kind and the character as its text, and the keyword pass leaves it unchanged |
| Tokenizer.StructureToToken | tokenizer.py:90-91 | the token has the structure table's kind and the character as its text, and the keyword pass leaves it unchanged |
| Tokenizer.ResolveToken | tokenizer.py:93-98 | text and line are kept, and the kind changes only for a keyword or a type name; `TypeNamesBecomeTypeTokens` gives the new kind in each case |
| Tokenizer.ResolveTokenAsWritten | tokenizer.py:93-98 | as written, the pass raises only on a type name, and whenever it does not raise it agrees with the intended pass; `TypeNameRaisesAsWritten` gives the converse |
| Tokenizer.TypeNameRaisesAsWritten | tokenizer.py:93-98 | as written, the keyword pass fails on exactly the type names, and agrees with the intended pass on every other token |
| Tokenizer.TypeNamesBecomeTypeTokens | tokenizer.py:93-98 | the intended keyword pass: a type name gets the type-name kind, a keyword its own kind, and any other token is unchanged |
| Tokenizer.ResolveAll | tokenizer.py:93-98 | the pass over a list keeps its length and resolves each token on its own |
| Tokenizer.Scan | tokenizer.py:100-119 | no contract of its own: the tokens of the scan loop are characterised by `ScanWellShaped` and `ScanLength`, and `Tokenizer.Tokenizer.Tokenize` is proved against it |
| Tokenizer.ScanWellShaped | tokenizer.py:100-119 | an identifier token is a non-empty run of identifier characters starting with a letter or `_`; a number token is a non-empty digit run; any other token is one operator or structure character with its table kind |
| Tokenizer.ScanLength | tokenizer.py:100-119 | every token consumes at least one source character, so there are no more tokens than characters |
| Tokenizer.ReservedWordsAreLetters | tokenizer.py:40-57 | every keyword and type name starts with a letter and is at least two characters long |
| Tokenizer.ResolveChangesOnlyIdents | tokenizer.py:93-121 | on scanned tokens the keyword pass changes the kind of identifier tokens only; operators, parentheses and numbers keep theirs |
| Tokenizer.Tokenizer.constructor | tokenizer.py:65-66 | a new tokenizer has no tokens |
| Tokenizer.Tokenizer.ReadIdent | tokenizer.py:68-73 | the token read is the maximal identifier run at the cursor, and the cursor ends just after it |
| Tokenizer.Tokenizer.ReadNumber | tokenizer.py:75-80 | the token read is the maximal digit run at the cursor, and the cursor ends just after it |
| Tokenizer.Tokenizer.ConsumeComment | tokenizer.py:82-85 | the cursor stops at the next newline, which is not consumed, or at the end of the input |
| Tokenizer.Tokenizer.ResolveKeywords | tokenizer.py:93-98 | in place: the token count, every literal and every line are kept; the kind becomes the keyword kind on an exact keyword match, else the type-name kind on an exact type-name match, else it is unchanged |
| Tokenizer.Tokenizer.Tokenize | tokenizer.py:100-121 | the new token list is the old one with the tokens of the source appended in source order, then the keyword pass applied to all of them |
| ParserSpec.Require | parser.py:301-304 | succeeds exactly when the current token has the kind, returns it and advances by one; otherwise it fails with the expected kind, the actual kind and the line, and does not move |
| ParserSpec.Recover | parser.py:310-313 | as written, lands on the first EOF at or after the cursor and never consumes it |
| ParserSpec.RecoverFindsFirstEof | parser.py:310-313 | every token `recover` skips is not EOF |
| ParserSpec.RecoverIntended | parser.py:310-313 | corrected: stops just after the first newline, `end` or `else`, or at EOF, and skips no such token before that |
| ParserSpec.IsValidLvalue | parser.py:395-400 | only a primary or a prefix expression can be an lvalue; a binary expression or a call never is; `ParserSpec.ParseAssignment` states the exact condition |
| ParserSpec.ParseExpr | parser.py:446-449 | the cursor never moves back, a success consumes at least one token, and every failure is a required-kind or primary error |
| ParserSpec.ParseFunctionCall | parser.py:434-444 | the same cursor and error guarantee for a call |
| ParserSpec.ParseArgs | parser.py:437-442 | the argument loop stays inside the tokens and fails only on a missing comma between two arguments; the closing parenthesis is required by `ParserSpec.ParseFunctionCall` |
| ParserSpec.ParseComparison | parser.py:451-462 | the same cursor and error guarantee for a comparison; its grouping is stated by `ComparisonIsLeftAssociative` |
| ParserSpec.ComparisonLoop | parser.py:453-461 | the comparison loop stays inside the tokens and fails only with expression errors; its grouping is stated by `ComparisonLoopGroupsLeft` |
| ParserSpec.ParseAddition | parser.py:464-470 | the same cursor and error guarantee for an addition |
| ParserSpec.AdditionLoop | parser.py:466-469 | the addition loop stays inside the tokens and fails only with expression errors |
| ParserSpec.ParseFactor | parser.py:472-478 | the same cursor and error guarantee for a factor; its grouping is stated by `FactorIsLeftAssociative` |
| ParserSpec.FactorLoop | parser.py:474-477 | the factor loop stays inside the tokens and fails only with expression errors; its grouping is stated by `FactorLoopGroupsLeft` |
| ParserSpec.ParseUnary | parser.py:480-485 | the same cursor and error guarantee for a prefix expression |
| ParserSpec.ParsePrimary | parser.py:487-498 | the cursor and error guarantee; when an identifier is required, a success is exactly that identifier |
| ParserSpec.ParseDefinition | parser.py:426-432 | the cursor and error guarantee for `name : type = expr` |
| ParserSpec.ParseAssignment | parser.py:419-424 | it fails with "invalid lvalue" exactly when the left side is neither an identifier nor a `*` dereference, and then consumes nothing |
| ParserSpec.ParseReturn | parser.py:415-417 | the cursor and error guarantee; a `return` keyword is always consumed |
| ParserSpec.ParseSimpleStatement | parser.py:368-374 | a simple statement never moves the cursor back, and a success consumes at least one token |
| ParserSpec.ParseStatement | parser.py:366-385 | the cursor never moves back, errors are only appended, and a success ends just after the statement's closing newline |
| ParserSpec.StatementHead | parser.py:366-383 | the same guarantee for the statement before its newline |
| ParserSpec.ParseIf | parser.py:402-413 | the statement guarantee; the `if` keyword is always consumed |
| ParserSpec.ParseIfTail | parser.py:406-413 | the statement guarantee for the optional `else` branch and the closing `end` |
| ParserSpec.ParseWhile | parser.py:387-393 | the statement guarantee; the `while` keyword is always consumed |
| ParserSpec.ParseBody | parser.py:353-364 | a body never fails, because errors inside it are caught; errors are only appended |
| ParserSpec.BodyLoop | parser.py:355-363 | the body loop ends at a token that cannot start a body item |
| ParserSpec.ParseParams | parser.py:342-351 | the parameter loop stays inside the tokens and never moves back |
| ParserSpec.ParseFunction | parser.py:329-340 | the statement guarantee for a function definition |
| ParserSpec.FunctionHeader | parser.py:329-336 | the header's name is an identifier token, and the `fn` keyword is always consumed |
| ParserSpec.FunctionSignature | parser.py:329-334 | the same for the header up to the closing parenthesis |
| ParserSpec.FunctionName | parser.py:330-331 | the name after `fn` is an identifier token; `fn` is always consumed |
| ParserSpec.ProgramItem | parser.py:319-324 | a top-level item never moves back, and errors are only appended |
| ParserSpec.ProgramLoop | parser.py:315-327 | errors are only appended; a stall is at a real token before EOF |
| ParserSpec.ParseProgram | parser.py:315-327 | the top-level loop from the first token with no errors; a divergence is at a real token before EOF, and `DivergesOnlyAtMisplacedDefinition` says which |
| Parser.Parser.constructor | parser.py:278-282 | a new parser is at the first token with no errors |
| Parser.Parser.Peek | parser.py:284-287 | the token returned is one at or after the cursor |
| Parser.Parser.Consume | parser.py:289-294 | inside the array it returns the current token and advances by one; past the end it returns nothing and does not move |
| Parser.Parser.Expect | parser.py:296-299 | true only when there is a current token and its kind is one of those given; false past the end of the tokens |
| Parser.Parser.Require | parser.py:301-304 | in place: `require` as `ParserSpec.Require` states it |
| Parser.Parser.Recover | parser.py:310-313 | in place: the cursor moves to where `ParserSpec.Recover` says |
| Parser.Parser.ParseExpr | parser.py:446-449 | result and new cursor are those of `ParserSpec.ParseExpr` |
| Parser.Parser.ParseFunctionCall | parser.py:434-444 | result and new cursor are those of `ParserSpec.ParseFunctionCall` |
| Parser.Parser.ParseArguments | parser.py:437-442 | the argument loop's result and cursor are those of `ParserSpec.ParseArgs` |
| Parser.Parser.ParseComparison | parser.py:451-462 | the loop's result and cursor are those of `ParserSpec.ParseComparison` |
| Parser.Parser.ParseAddition | parser.py:464-470 | the loop's result and cursor are those of `ParserSpec.ParseAddition` |
| Parser.Parser.ParseFactor | parser.py:472-478 | the loop's result and cursor are those of `ParserSpec.ParseFactor` |
| Parser.Parser.ParseUnary | parser.py:480-485 | result and cursor are those of `ParserSpec.ParseUnary` |
| Parser.Parser.ParsePrimary | parser.py:487-498 | result and cursor are those of `ParserSpec.ParsePrimary` |
| Parser.Parser.ParsePrimaryIdent | parser.py:487-491 | `parse_primary(IDENT)` behaves as requiring an identifier token |
| Parser.Parser.ParseDefinition | parser.py:426-432 | result and cursor are those of `ParserSpec.ParseDefinition` |
| Parser.Parser.ParseAssignment | parser.py:419-424 | an invalid lvalue fails without moving; otherwise as `ParserSpec.ParseAssignment` |
| Parser.Parser.ParseReturnStatement | parser.py:415-417 | result and cursor are those of `ParserSpec.ParseReturn` |
| Parser.Parser.ParseSimpleStatement | parser.py:368-374 | result and cursor are those of `ParserSpec.ParseSimpleStatement` |
| Parser.Parser.ParseStatement | parser.py:366-385 | result, cursor and errors are those of `ParserSpec.ParseStatement` |
| Parser.Parser.ParseStatementHead | parser.py:366-383 | result, cursor and errors are those of `ParserSpec.StatementHead` |
| Parser.Parser.ParseIfStatement | parser.py:402-413 | result, cursor and errors are those of `ParserSpec.ParseIf` |
| Parser.Parser.ParseIfTail | parser.py:406-413 | result, cursor and errors are those of `ParserSpec.ParseIfTail` |
| Parser.Parser.ParseWhileStatement | parser.py:387-393 | result, cursor and errors are those of `ParserSpec.ParseWhile` |
| Parser.Parser.ParseBody | parser.py:353-364 | the body loop's result, cursor and errors are those of `ParserSpec.ParseBody` |
| Parser.Parser.ParseParams | parser.py:342-351 | the parameter loop's result and cursor are those of `ParserSpec.ParseParams` |
| Parser.Parser.ParseFunction | parser.py:329-340 | result, cursor and errors are those of `ParserSpec.ParseFunction` |
| Parser.Parser.ParseFunctionHeader | parser.py:329-336 | result and cursor are those of `ParserSpec.FunctionHeader` |
| Parser.Parser.ParseFunctionName | parser.py:330-331 | result and cursor are those of `ParserSpec.FunctionName` |
| Parser.Parser.ParseFunctionSignature | parser.py:329-334 | result and cursor are those of `ParserSpec.FunctionSignature` |
| Parser.Parser.ParseProgramRound | parser.py:317-326 | one round of the top-level loop either advances without changing what the rest of the loop yields, or is the stall that `ProgramLoop` reports |
| Parser.Parser.ParseItem | parser.py:319-324 | result, cursor and errors are those of `ParserSpec.ProgramItem` |
| Parser.Parser.ParseProgram | parser.py:315-327 | the outcome is `ParserSpec.ProgramLoop` from the start; a finished parse stops at EOF and the recorded errors are the outcome's |
| ParserProperties.FactorLoopGroupsLeft | parser.py:474-477 | a chain `op b op c ...` of `*` and `/` after any left operand is grouped to the left |
| ParserProperties.FactorIsLeftAssociative | parser.py:472-478 | `a * b / c` parses as `(a * b) / c`, for a chain of any length |
| ParserProperties.AdditionLoopGroupsLeft | parser.py:466-469 | a chain `op b op c ...` of `+` and `-` after any left operand is grouped to the left |
| ParserProperties.AdditionIsLeftAssociative | parser.py:464-470 | `a - b - c` parses as `(a - b) - c`, for a chain of any length |
| ParserProperties.ComparisonLoopGroupsLeft | parser.py:453-461 | a chain `op b op c ...` of `<`, `>`, `<=` and `>=` after any left operand is grouped to the left |
| ParserProperties.ComparisonIsLeftAssociative | parser.py:446-462 | `a < b < c` parses as `(a < b) < c`, for a chain of any length, and such a chain is a whole expression |
| ParserProperties.FactorBindsTighterThanAddition | parser.py:464-478 | `a + b * c` parses as `a + (b * c)` |
| ParserProperties.FactorGroupsBeforeAddition | parser.py:464-478 | `a * b + c` parses as `(a * b) + c` |
| ParserProperties.AdditionBindsTighterThanComparison | parser.py:451-470 | `a < b + c` parses as `a < (b + c)` |
| ParserProperties.AdditionGroupsBeforeComparison | parser.py:451-470 | `a + b < c` parses as `(a + b) < c` |
| ParserProperties.FactorLoopStops | parser.py:474-477 | a successful factor loop stops only at a token that is no `*` or `/` |
| ParserProperties.AdditionLoopStops | parser.py:466-469 | started after a complete factor, a successful addition loop stops only at a token that is no additive or factor operator |
| ParserProperties.ComparisonLoopStops | parser.py:453-461 | started after a complete addition, a successful comparison loop stops only at a token that is no binary operator |
| ParserProperties.OperandsStop | parser.py:464-478 | precedence for any input: a successful factor ends at no factor operator and a successful addition at no additive or factor operator, so every operand a looser loop joins is complete at the tighter level |
| ParserProperties.ComparisonEndsExpression | parser.py:451-462 | a successful comparison ends at a token that is no binary operator of any level |
| ParserProperties.DoublePrefixIsRejected | parser.py:480-485 | two prefix operators in a row fail with "expected primary expression" at the second |
| ParserProperties.BodyStopsAtFirstError | parser.py:353-364 | a body records the error of its first failing statement; with `recover` as written, the body then ends at EOF |
| ParserProperties.RecoverIntendedStopsNoLater | parser.py:310-313 | the corrected `recover` never skips further than the written one |
| ParserProperties.ExprConsumesFirstToken | parser.py:446-498 | an expression that starts with an identifier, a number or `*` always consumes its first token |
| ParserProperties.FunctionConsumesKeyword | parser.py:329-330 | a function definition always consumes its `fn`, even when it fails |
| ParserProperties.StatementStallsIff | parser.py:366-385 | a statement fails without consuming anything exactly when it starts with a number or `*` followed by `:` |
| ParserProperties.ItemStallsIff | parser.py:319-324 | the same holds for a top-level item |
| ParserProperties.DivergesOnlyAtMisplacedDefinition | parser.py:315-327 | with the exception constructor corrected, `parse_program` loops forever only at such a statement |
| ParserProperties.NumberDefinitionDiverges | parser.py:315-327 | with the exception constructor corrected, on `7 : int = 1` the top-level loop stalls at the first token, repeating "expected IDENT, got NUMBER" forever; as written, the first raise already ends the parse with an attribute error |
| ParserProperties.ParserExceptionConstructorRaises | parser.py:42-46 | as written, constructing a parse error always raises an attribute error for `message` |
| ParserProperties.RecoverSkipsWholeRest | parser.py:310-313 | after an error on the first line of `x` / `y`, the written `recover` skips the second line as well; the corrected one resumes at it |
| AnalyzerSpec.Report | semantic_analyzer.py:34-38 | the name becomes reported, scopes are untouched, reports are only appended, and no name is reported twice |
| AnalyzerSpec.ExprF | semantic_analyzer.py:71-85 | walking an expression leaves the scopes alone, only appends reports, keeps one report per name, and changes annotations only |
| AnalyzerSpec.ParamsF | semantic_analyzer.py:109-115 | after the parameters every parameter name is bound in the innermost scope, and no enclosing scope changes |
| AnalyzerSpec.StmtF | semantic_analyzer.py:86-117 | a statement keeps the stack depth and the enclosing scopes, only adds bindings to the innermost scope, and keeps one report per name |
| AnalyzerSpec.IfF | semantic_analyzer.py:94-100 | an `if` leaves the scopes as it found them |
| AnalyzerSpec.WhileF | semantic_analyzer.py:101-105 | a `while` leaves the scopes as it found them |
| AnalyzerSpec.FunctionF | semantic_analyzer.py:111-117 | a function definition changes only the innermost scope, by adding bindings, and keeps one report per name |
| AnalyzerSpec.BodyF | semantic_analyzer.py:106-108 | a body keeps the stack depth and the enclosing scopes |
| AnalyzerSpec.StmtsF | semantic_analyzer.py:106-108 | a statement list yields one node per statement and keeps the stack depth and the enclosing scopes |
| AnalyzerSpec.ProgramF | semantic_analyzer.py:118-120 | a program yields one item per item and keeps the stack depth and the enclosing scopes |
| AnalyzerSpec.Analyze | semantic_analyzer.py:122-123 | an analysis ends with the single global scope and at most one report per name |
| AnalyzerSpec.Lookup | semantic_analyzer.py:40-47 | a type found for a name is bound to it in some scope; `LookupFindsInnermost` and `LookupFailsIffUnbound` say which binding and when none is found |
| AnalyzerSpec.Access | semantic_analyzer.py:40-47 | the scopes are unchanged and reports are only appended; a resolved name changes nothing; `AccessResolvesOrReports` gives the type and the report |
| AnalyzerSpec.Define | semantic_analyzer.py:49-55 | binds exactly when the innermost scope lacks the name, and otherwise only adds bindings to the innermost scope and appends reports; `DefineBindsInInnermost` gives the new bindings |
| AnalyzerSpec.NewScope | semantic_analyzer.py:57-58 | one empty scope is pushed, and `EndScope` restores the state before it |
| AnalyzerSpec.EndScope | semantic_analyzer.py:60-61 | the innermost scope is popped; every other scope and all reports are kept |
| AnalyzerSpec.FittingIntType | semantic_analyzer.py:63-64 | the type given is a name of the type table; `NumberIsInt` states that it is `int` for every literal |
| Analyzer.SemanticAnalyzer.constructor | semantic_analyzer.py:23-28 | a new analyzer has one empty scope and no reports |
| Analyzer.SemanticAnalyzer.Report | semantic_analyzer.py:34-38 | in place: the reports change as `AnalyzerSpec.Report` states |
| Analyzer.SemanticAnalyzer.Access | semantic_analyzer.py:40-47 | the scan from the innermost scope finds the type and reports exactly as `AnalyzerSpec.Access` states |
| Analyzer.SemanticAnalyzer.Define | semantic_analyzer.py:49-55 | in place: binding and reporting as `AnalyzerSpec.Define` states |
| Analyzer.SemanticAnalyzer.NewScope | semantic_analyzer.py:57-58 | one empty scope is pushed |
| Analyzer.SemanticAnalyzer.EndScope | semantic_analyzer.py:60-61 | the innermost scope is popped |
| Analyzer.SemanticAnalyzer.PostorderExpr | semantic_analyzer.py:71-85 | annotated node and new state are those of `AnalyzerSpec.ExprF` |
| Analyzer.SemanticAnalyzer.PostorderParams | semantic_analyzer.py:109-115 | the parameter loop leaves the state `AnalyzerSpec.ParamsF` gives |
| Analyzer.SemanticAnalyzer.PostorderStmt | semantic_analyzer.py:86-117 | annotated node and new state are those of `AnalyzerSpec.StmtF` |
| Analyzer.SemanticAnalyzer.PostorderBody | semantic_analyzer.py:106-108 | annotated body and new state are those of `AnalyzerSpec.BodyF` |
| Analyzer.SemanticAnalyzer.PostorderStmts | semantic_analyzer.py:106-108 | the statement loop yields the nodes and state of `AnalyzerSpec.StmtsF` |
| Analyzer.SemanticAnalyzer.Analyze | semantic_analyzer.py:122-123 | the stored tree and the state become those of `AnalyzerSpec.ProgramF` |
| AnalyzerProperties.LookupFindsInnermost | semantic_analyzer.py:40-47 | a name resolves to a type exactly when the innermost scope that binds it binds it to that type |
| AnalyzerProperties.LookupFailsIffUnbound | semantic_analyzer.py:40-47 | a name resolves to nothing exactly when no scope binds it |
| AnalyzerProperties.DefineBindsInInnermost | semantic_analyzer.py:49-55 | `define` binds exactly when the innermost scope lacks the name; the name then resolves to the type, and other names and the enclosing scopes are unchanged; a redefinition changes no scope |
| AnalyzerProperties.RedefinitionIsReported | semantic_analyzer.py:51-53 | a redefinition binds nothing and is reported at its line, unless the name was reported before |
| AnalyzerProperties.AccessResolvesOrReports | semantic_analyzer.py:40-47 | `access` gives the resolved type; an unresolved name is reported "used before definition" at the use's line, once |
| AnalyzerProperties.NumberIsInt | semantic_analyzer.py:63-76 | every number literal is typed `int` and changes nothing else |
| AnalyzerProperties.BoundIdentifierIsTyped | semantic_analyzer.py:71-74 | an identifier bound anywhere in scope gets the innermost binding's type without a report |
| AnalyzerProperties.UndefinedNameReportedOnce | semantic_analyzer.py:34-47 | example: in `x op x` with `x` undefined, the two uses give one report, at the first use |
| AnalyzerProperties.DefinitionVisibleInOwnInitializer | semantic_analyzer.py:89-91 | a definition binds its name before its right side is walked, so `x : int = x` reports nothing |
| AnalyzerProperties.ConditionResolvesAsOutside | semantic_analyzer.py:94-103 | a condition walked in the freshly pushed scope gets the annotations and reports it would get outside it |
| AnalyzerProperties.NestedScopesAreClosed | semantic_analyzer.py:94-105 | after an `if` or a `while` the scope stack is exactly as before |
| AnalyzerProperties.FunctionBindsOnlyItsName | semantic_analyzer.py:111-117 | a function definition changes the scopes exactly as defining its name does; parameters and body definitions are gone afterwards |
| AnalyzerProperties.IfBranchesShareOneScope | semantic_analyzer.py:94-100 | example: both branches of an `if` share one scope, so defining `x` in each reports a redefinition at the second |
| AnalyzerProperties.AnalysisReportsEachNameOnce | semantic_analyzer.py:34-38 | a whole analysis reports each name at most once, across both kinds of report |
| AnalyzerProperties.FunctionNameResolvesToReturnType | semantic_analyzer.py:111-113 | corrected: a newly defined function name resolves to its return type's name, and the definition records it |
| AnalyzerProperties.FunctionAsWritten | semantic_analyzer.py:111-117 | as written, the walk reads the return type's `literal` attribute before anything else; a type object holds text only in `name`, so the read raises (`FunctionDefinitionRaises`), and only a read that succeeded would go on to the walk `FunctionF` gives |
| AnalyzerProperties.FunctionDefinitionRaises | semantic_analyzer.py:112 | as written, every function definition raises an attribute error for `literal` |

## Left out

- File reading, the module-level driver and `print` in `tokenizer.py`, the `display_errors` printers, the ANSI colour strings and the debug prints in `semantic_analyzer.py` are I/O. The `filename` parameters serve only those printers.
- `test.py`, `ssa_parser` and `PrettyPrint` are not part of this model. Neither are the AST's display methods (`get_children`, `get_value`).
- Python's Unicode `isalpha`, `isalnum` and `isnumeric` are modelled as ASCII letter and digit classes.
- The tokenizer of this model emits no newline or EOF tokens and gives every token line 0, as `tokenizer.py` does. The parser's input, with newlines, EOF and line numbers, comes from a tokenizer that is not part of this model.
- `ParserSpec.WellFormed` rules out two runtime errors. One is a `KeyError` in `literal_to_type` for a type-name token missing from the size table. The other is an `IndexError` on a token array with no EOF.
- Error messages are kept as structured `ParseError` and `Message` values, not as formatted text.
- The analyzer binds type names (strings), not `Type` objects. Annotations are returned in a new tree, not written onto shared nodes. Python object identity and aliasing are not modelled.
- `OPERATOR_TO_INSTRUCTION` is not used by the modelled code.
- `postorder` on a call also visits the call's arguments, but those are tokens, and the walk does nothing on a token. The model therefore leaves arguments untouched.
- Types.PointerType: names the pointer `ptr<` + base name + `>`. The source formats the base `Type` object itself, and that object has no string conversion, so Python prints its default object representation there. Nothing in the modelled code builds a pointer type.
- Parser.Parser.ParseProgram: a stalled top-level loop returns the `Diverges` outcome instead of running forever.
- `parse_program` returns the program, but `test.py` reads `parser.ast`, which the parser never sets. That driver is not modelled.

## Findings

| source | as written | input that shows it | evidently intended | confidence | as-written member | corrected member |
|---|---|---|---|---|---|---|
| tokenizer.py:70 | `read_ident`, `read_number` and `consume_comment` (lines 70, 77, 83) index `source[idx]` before they check `idx < len(source)` | the source `x`: the identifier run reaches the end of the input, and `source[1]` raises `IndexError` | check the bound first, so a run may end at the end of the input | not executed | Tokenizer.IdentifierAtEndFails | Tokenizer.Tokenizer.ReadIdent |
| tokenizer.py:98 | the type-name branch assigns `TokenType.TYPE`, but that member is commented out at line 13 | the source `int` followed by a newline: the identifier reader stops at the newline, and the keyword pass then raises `AttributeError` on `int` | type names get their own token kind | not executed | Tokenizer.TypeNameRaisesAsWritten | Tokenizer.TypeNamesBecomeTypeTokens |
| parser.py:44 | `ParserException.__init__` passes `self.message` to the base class before assigning it | any `raise ParserException(...)`, for example the "expected a statement" error: constructing it raises `AttributeError`, which no `except ParserException` catches | the exception holds its message and line and is caught and recorded | not executed | ParserProperties.ParserExceptionConstructorRaises | ParserProperties.BodyStopsAtFirstError |
| parser.py:312 | `recover` compares the consumed `Token` object with token kinds, which is never true | tokens `x` NEWLINE `y` NEWLINE EOF, recovering at `x`: everything up to EOF is skipped | stop just after the first newline, `end` or `else` | not executed | ParserProperties.RecoverSkipsWholeRest | ParserSpec.RecoverIntended |
| parser.py:80 | `literal_is_signed` is true exactly for `ubyte`, `ushort`, `uint` and `ulong` | `int` gets `signed` false | signed unless the name is one of the unsigned names | not executed | Types.IntIsFlaggedUnsigned | Types.IntendedSigned |
| semantic_analyzer.py:112 | a function definition binds its name to `node.return_type.literal`, but a `Type` has only `name`, `size` and `signed` | any function definition, for example the tokens of `fn f(): int`, a newline and `end`, which parse without error | bind the name to the return type's name | not executed | AnalyzerProperties.FunctionDefinitionRaises | AnalyzerProperties.FunctionNameResolvesToReturnType |

The parser and the analyzer are modelled on the corrected behaviour for
the tokenizer readers, the type-name kind, the exception constructor and
the return-type attribute. Two are modelled as written. One is `recover`, because where it stops
decides which statements a body still parses. So the parser model
combines the corrected exception constructor with the as-written
`recover`. As written, `recover` is only reached after a raise, and a
raise already fails in the constructor. The other is
`literal_is_signed`, because it is the type table's own data. For each of
these two, the corrected definition and its proved property sit next to
the as-written one.
