# ExcelViewer core, modelled in Dafny

This project models the non-visual core of ExcelViewerV2, a WPF spreadsheet viewer and editor.

- **Cell addresses**: "A1"-style names and their parsing into row and column indices.
- **Formula engine**: tokenizer, recursive-descent parser, abstract syntax tree, evaluator (cell references, `+ - * /` and `SUM` over ranges), and the engine that recalculates a sheet cell by cell, row by row.
- **Sheet**: the cells of a sheet with their raw content and shown value, row heights and column widths, construction, `SetCell`, recalculation and enumeration.
- **Undo and redo**: the two cell-editing commands, the undo/redo stacks and the edit session of the in-place editor.
- **Search**: find-all over the visible sheets of a workbook, and the text of a search result.
- **Grid control geometry**: column header captions, the running offsets of rows and columns, the binary search that maps a coordinate to a row or column, and the hit test of a point.
- **Printing**: greedy pagination of rows into pages, and the sub-sheet each page is printed from.

The modules are laid out as follows:

- `wrappers`, `strings` and `numbers` hold shared vocabulary. `Option` stands for a nullable string and `Result` for an operation that may throw. `NumberCulture` stands for the current culture's `double.TryParse`/`ToString`.
- Each Dafny file holds one module, named after what it models. Most C# core files have one Dafny file each. `commands` holds both command kinds (`CellEditCommand` and `CellTextChangeCommand`). `SpreadsheetSearchService` is split into three files: `search` holds the text matching, `search_service` the loops of `FindAll`, and `search_laws` their properties. Pure logic is functions. Loops that update variables are methods with invariants, proved against those functions.
- Objects whose fields are updated in place are classes: `CellModel`, `SpreadsheetModel`, `FormulaEngine`, `UndoManager`, `EditSession` and `ExcelLikeGrid`.
- The `*_laws` files hold the lemmas that relate several operations.

Doubles are modelled as `real`, so there is no rounding.

## Model

| member | source | states |
|---|---|---|
| Strings.Upper | ExcelViewerV2/Formula/FormulaLexer.cs:15 | `ToUpper` keeps the length, maps each character through the ASCII upper-casing, leaves no lower-case letter, and leaves upper-case text unchanged |
| Strings.ParseInt | ExcelViewerV2/Model/CellAddress.cs:21 | `int.Parse` succeeds exactly on a non-empty text of digits after at most one leading sign that is itself followed by a digit, and on a run of digits gives their decimal value |
| Strings.DecimalRoundTrip | ExcelViewerV2/Model/CellAddress.cs:21-38 | the decimal text of any integer reads back as that integer |
| Address.ColumnLetters | ExcelViewerV2/Model/CellAddress.cs:28-36 | the bijective base-26 letters of a positive number are non-empty upper-case letters; for 0 there are none |
| Address.LetterRun | ExcelViewerV2/Model/CellAddress.cs:9-10 | the scan stops at the first non-letter: everything before it is a letter |
| Address.Parse | ExcelViewerV2/Model/CellAddress.cs:7-24 | the loop computes `AddressOf`, and it fails exactly when the text after the leading letters is not an integer |
| Address.ToName | ExcelViewerV2/Model/CellAddress.cs:26-39 | the loop computes `NameOf`: the column letters of col + 1, then the decimal row + 1 |
| Address.ColumnRoundTrip | ExcelViewerV2/Model/CellAddress.cs:16-36 | reading the letters of n as base-26 digits gives back n |
| Address.LettersRoundTrip | ExcelViewerV2/Model/CellAddress.cs:16-36 | any run of upper-case letters is the letter form of its own value |
| Address.ParseToNameRoundTrip | ExcelViewerV2/Model/CellAddress.cs:7-39 | `Parse(ToName(row, col)) == (row, col)` for every row, col >= 0 |
| Address.LetterRunOfName | ExcelViewerV2/Model/CellAddress.cs:10 | in a name, the letter scan stops exactly where the row digits start |
| Address.NameShape | ExcelViewerV2/Model/CellAddress.cs:28-38 | a name is a non-empty run of letters A-Z followed by the decimal form of row + 1 |
| Address.ParseExamples | ExcelViewerV2/Model/CellAddress.cs:12-21 | "A1" is (0,0), "AA1" and "aa1" are (0,26), "B12" is (11,1): letters are read case-insensitively |
| Address.NoLettersGivesColumnMinusOne | ExcelViewerV2/Model/CellAddress.cs:10-19 | an address without leading letters gives column -1 and no error |
| Tokens.NineTokenTypes | ExcelViewerV2/Formula/FormulaToken.cs:3-13 | there are exactly the nine token types, each listed once |
| Lexer.NumberLen | ExcelViewerV2/Formula/FormulaLexer.cs:8 | a number match exists exactly when the text starts with a digit |
| Lexer.CellLen | ExcelViewerV2/Formula/FormulaLexer.cs:9 | a cell match is one or more letters A-Z followed by one or more digits, and the digit run is taken whole (the next character is not a digit) |
| Lexer.FuncLen | ExcelViewerV2/Formula/FormulaLexer.cs:10 | a function match is one or more letters A-Z directly followed by '(', and the '(' is not consumed |
| Lexer.CellMatchExists | ExcelViewerV2/Formula/FormulaLexer.cs:9 | any run of letters A-Z followed by a digit yields a cell match made of those letters and the digits after them |
| Lexer.FuncMatchExists | ExcelViewerV2/Formula/FormulaLexer.cs:10 | any run of letters A-Z followed by '(' yields a function match of exactly those letters |
| Lexer.Punctuation | ExcelViewerV2/Formula/FormulaLexer.cs:49-67 | a single character yields at most one token, whose text is that character |
| Lexer.Scan | ExcelViewerV2/Formula/FormulaLexer.cs:19-67 | one step consumes at least one character and emits at most one token, whose text is exactly the consumed input |
| Lexer.TokenList | ExcelViewerV2/Formula/FormulaLexer.cs:12-72 | the token list ends with the single End token |
| Lexer.Tokenize | ExcelViewerV2/Formula/FormulaLexer.cs:12-72 | the loop computes `TokenList` of the upper-cased input |
| Lexer.ScanStep | ExcelViewerV2/Formula/FormulaLexer.cs:17-68 | one iteration of the loop preserves "emitted tokens + tokens of the rest = tokens of the input" |
| Lexer.TokenTextsSubsequenceOfInput | ExcelViewerV2/Formula/FormulaLexer.cs:12-72 | the token texts, in order, form a subsequence of the upper-cased input: nothing is invented or reordered |
| Lexer.FunctionFollowedByLParen | ExcelViewerV2/Formula/FormulaLexer.cs:41-60 | every Function token is immediately followed by an LParen token |
| Lexer.TokenTextsUpper | ExcelViewerV2/Formula/FormulaLexer.cs:15 | no token text contains a lower-case letter |
| Lexer.WhiteSpaceDropped | ExcelViewerV2/Formula/FormulaLexer.cs:19-23 | leading white space produces no token |
| Lexer.StrayCharacterDropped | ExcelViewerV2/Formula/FormulaLexer.cs:49-67 | a character no rule matches is skipped silently |
| Lexer.MatchPriority | ExcelViewerV2/Formula/FormulaLexer.cs:25-47 | each rule's match becomes the first token: the number match when the text starts with a digit, else the cell match, else the function match |
| Lexer.MatchesExclusive | ExcelViewerV2/Formula/FormulaLexer.cs:8-10 | no text matches two of the number, cell and function patterns, so the order in which they are tried never changes the token |
| Lexer.NumberShape | ExcelViewerV2/Formula/FormulaLexer.cs:8 | a number is digits, optionally followed by '.' and at least one more digit |
| Lexer.NameTokenizes | ExcelViewerV2/Formula/FormulaLexer.cs:33-39 | every cell name tokenizes to one Cell token followed by End |
| Parser.ExprAt | ExcelViewerV2/Formula/FormulaParser.cs:20-33 | a parsed expression consumes at least one token and stops before the end of the list |
| Parser.FactorAt | ExcelViewerV2/Formula/FormulaParser.cs:50-93 | a parsed factor consumes at least one token |
| Parser.ParseTokens | ExcelViewerV2/Formula/FormulaParser.cs:10-15 | parsing succeeds exactly when an expression parses from position 0, and returns that expression |
| Parser.FormulaParser.Parse | ExcelViewerV2/Formula/FormulaParser.cs:10-15 | the stateful parser returns `ParseTokens` of its tokens |
| Parser.FormulaParser.Peek | ExcelViewerV2/Formula/FormulaParser.cs:17 | the token at the position, or an error past the end |
| Parser.FormulaParser.Next | ExcelViewerV2/Formula/FormulaParser.cs:18 | the token at the position, or an error past the end; the position always advances |
| Parser.FormulaParser.ParseExpr | ExcelViewerV2/Formula/FormulaParser.cs:20-33 | the loop over `+`/`-` agrees with `ExprAt`, in both result and final position |
| Parser.FormulaParser.ParseTerm | ExcelViewerV2/Formula/FormulaParser.cs:35-48 | the loop over `*`/`/` agrees with `TermAt` |
| Parser.FormulaParser.ParseFactor | ExcelViewerV2/Formula/FormulaParser.cs:50-93 | the factor cases agree with `FactorAt` |
| ParserLaws.ExprAgree | ExcelViewerV2/Formula/FormulaParser.cs:20-33 | parsing reads only the tokens up to the one after the parsed expression |
| ParserLaws.TrailingTokensIgnored | ExcelViewerV2/Formula/FormulaParser.cs:10-15 | tokens after the parsed expression are ignored: replacing them changes nothing |
| ParserLaws.AdditiveLeftAssociative | ExcelViewerV2/Formula/FormulaParser.cs:68-74 | `a o1 b o2 c` with additive operators parses as `(a o1 b) o2 c` |
| ParserLaws.MultiplicativeLeftAssociative | ExcelViewerV2/Formula/FormulaParser.cs:83-89 | `a o1 b o2 c` with multiplicative operators parses as `(a o1 b) o2 c` |
| ParserLaws.MultiplicationBindsTighterRight | ExcelViewerV2/Formula/FormulaParser.cs:64-92 | `a + b * c` parses as `a + (b * c)` |
| ParserLaws.MultiplicationBindsTighterLeft | ExcelViewerV2/Formula/FormulaParser.cs:64-92 | `a * b + c` parses as `(a * b) + c` |
| ParserLaws.RangeTakesNextTokenText | ExcelViewerV2/Formula/FormulaParser.cs:57-64 | after `Cell :` the range takes the next token's text, whatever its type |
| ParserLaws.FunctionArguments | ExcelViewerV2/Formula/FormulaParser.cs:69-83 | a function takes one argument, plus a second exactly when a comma follows; the token after the function name (normally '(') and the token after the last argument (normally ')') are both skipped unchecked, so the call ends one token past its last argument |
| ParserLaws.ParenthesesUnwrapped | ExcelViewerV2/Formula/FormulaParser.cs:85-90 | `( e )` parses to e itself, skipping the closing token |
| ParserLaws.OtherTokenIsZero | ExcelViewerV2/Formula/FormulaParser.cs:92 | any other token becomes the number 0 |
| ParserLaws.EmptyFormulaFails | ExcelViewerV2/Formula/FormulaParser.cs:50-92 | the text "" tokenizes to End alone, and its parse fails, because End is consumed and the next Peek is past the end |
| ParserLaws.TokensOfDanglingOperator | ExcelViewerV2/Formula/FormulaLexer.cs:12-72 | the text "1+" tokenizes to Number "1", Operator "+" and End |
| ParserLaws.TokensOfUnclosedParenthesis | ExcelViewerV2/Formula/FormulaLexer.cs:12-72 | the text "(1" tokenizes to LParen, Number "1" and End |
| ParserLaws.DanglingOperatorFails | ExcelViewerV2/Formula/FormulaParser.cs:68-74 | the tokens of the text "1+" do not parse: the right operand takes End and the next Peek is past the end |
| ParserLaws.UnclosedParenthesisFails | ExcelViewerV2/Formula/FormulaParser.cs:85-90 | the tokens of the text "(1" do not parse: the unchecked closing read takes End and the next Peek is past the end |
| Evaluator.Apply | ExcelViewerV2/Formula/FormulaEvaluator.cs:29-36 | `+`, `-`, `*` and `/` are undone by their inverse operation (for `*` and `/` when the right operand is not 0); division by 0 and any other operator give 0 |
| Evaluator.Eval | ExcelViewerV2/Formula/FormulaEvaluator.cs:14-48 | a tree with no cell reference and no range always has a value: only a bad address or a cell outside the sheet throws |
| EvaluatorLaws.NoCellNoGrid | ExcelViewerV2/Formula/FormulaEvaluator.cs:14-48 | a tree with no cell reference and no range has the same value whatever the sheet holds |
| Evaluator.NumberOrZero | ExcelViewerV2/Formula/FormulaEvaluator.cs:24 | `TryParse` of a shown value, or 0 when it is not a number |
| Evaluator.RangeSum | ExcelViewerV2/Formula/FormulaEvaluator.cs:50-65 | a range sum succeeds exactly when both addresses parse and every cell of the rectangle lies inside the sheet |
| Evaluator.FormulaEvaluator.SumRange | ExcelViewerV2/Formula/FormulaEvaluator.cs:50-65 | the nested loops compute `RangeSum` |
| EvaluatorLaws.ReversedRangeIsZero | ExcelViewerV2/Formula/FormulaEvaluator.cs:57-58 | a range whose end lies before its start, in rows or columns, sums to 0 |
| EvaluatorLaws.SingleCellRange | ExcelViewerV2/Formula/FormulaEvaluator.cs:21-65 | `A1:A1` evaluates like the reference `A1` |
| EvaluatorLaws.CellReference | ExcelViewerV2/Formula/FormulaEvaluator.cs:21-24 | a reference fails exactly when the address is malformed or outside the sheet; otherwise it is the number shown there, or 0 |
| EvaluatorLaws.NonNumericCellIsZero | ExcelViewerV2/Formula/FormulaEvaluator.cs:24 | a cell whose shown text is not a number counts as 0 |
| EvaluatorLaws.BinaryFailure | ExcelViewerV2/Formula/FormulaEvaluator.cs:26-28 | a binary node fails exactly when one of its operands fails |
| EvaluatorLaws.DivisionByZeroIsZero | ExcelViewerV2/Formula/FormulaEvaluator.cs:34 | dividing by 0 gives 0, not an error |
| EvaluatorLaws.DivisionByNonZero | ExcelViewerV2/Formula/FormulaEvaluator.cs:34 | dividing by anything else is exact real division |
| EvaluatorLaws.UnknownOperatorIsZero | ExcelViewerV2/Formula/FormulaEvaluator.cs:35 | an operator other than `+ - * /` gives 0 |
| EvaluatorLaws.OnlySumOfRange | ExcelViewerV2/Formula/FormulaEvaluator.cs:41-47 | a function node is evaluated only as `SUM` of a range; any other function gives 0 |
| EvaluatorLaws.SecondArgumentIgnored | ExcelViewerV2/Formula/FormulaEvaluator.cs:41-44 | a function's second argument never affects the result |
| EvaluatorLaws.RangeSumUpdate | ExcelViewerV2/Formula/FormulaEvaluator.cs:57-62 | each cell of the rectangle is counted exactly once: changing one cell moves the sum by the change in that cell's number when it lies inside the rectangle, leaves it unchanged when outside, and never changes whether the sum succeeds |
| Engine.FormulaEngine.EvaluateCell | ExcelViewerV2/Services/FormulaEngine.cs:22-50 | one cell's shown value becomes its raw text, the formatted result of its formula, or "#ERR"; raw contents do not change |
| Engine.FormulaEngine.RecalculateAll | ExcelViewerV2/Services/FormulaEngine.cs:15-20 | the row-major loop leaves the shown values equal to `Recalculated` of the old grids |
| EngineLaws.VisitEffect | ExcelViewerV2/Services/FormulaEngine.cs:22-50 | visiting a cell changes that cell and no other |
| EngineLaws.StateBeforeCells | ExcelViewerV2/Services/FormulaEngine.cs:15-20 | just before visiting (r, c), the cells visited already hold their final values and the rest their old ones |
| EngineLaws.RecalculatedCell | ExcelViewerV2/Services/FormulaEngine.cs:15-50 | each cell ends with its value computed against the grid as it stood when the loop reached it |
| EngineLaws.FormulaSeesEarlierCells | ExcelViewerV2/Services/FormulaEngine.cs:15-20 | a formula sees recalculated values for the cells before it in row-major order and old values for the cells after it |
| EngineLaws.NonFormulaShowsRaw | ExcelViewerV2/Services/FormulaEngine.cs:26-30 | after recalculation a cell that is not a formula shows its raw text |
| EngineLaws.FormulaCellValue | ExcelViewerV2/Services/FormulaEngine.cs:32-48 | a formula cell shows its formatted value, or "#ERR" when tokenizing, parsing or evaluating throws |
| EngineLaws.EmptyFormulaShowsError | ExcelViewerV2/Services/FormulaEngine.cs:32-48 | the cell "=" shows "#ERR" |
| EngineLaws.DanglingOperatorShowsError | ExcelViewerV2/Services/FormulaEngine.cs:32-48 | the cell "=1+" shows "#ERR" |
| EngineLaws.UnclosedParenthesisShowsError | ExcelViewerV2/Services/FormulaEngine.cs:32-48 | the cell "=(1" shows "#ERR" |
| Cells.CellModel.constructor | ExcelViewerV2/Model/CellModel.cs:16-66 | a new cell has empty raw and shown text and no wrapping |
| Cells.CellModel.Text | ExcelViewerV2/Model/CellModel.cs:31-33 | reading `Text` gives the shown value, not the raw content |
| Cells.CellModel.IsFormula | ExcelViewerV2/Model/CellModel.cs:23-25 | a cell is a formula exactly when its raw text starts with '=' |
| Cells.CellModel.SetText | ExcelViewerV2/Model/CellModel.cs:31-39 | setting `Text` stores the value (null read as "") as both raw and shown text, and reading `Text` gives it back |
| Cells.CellModel.SetTextInternal | ExcelViewerV2/Model/CellModel.cs:108-112 | the same update as the `Text` setter |
| Cells.CellModel.IsEmpty | ExcelViewerV2/Model/CellModel.cs:90-91 | empty exactly when the raw text is empty |
| Cells.CellModel.CanOverflow | ExcelViewerV2/Model/CellModel.cs:93-95 | overflows exactly when not wrapped and the shown text is non-empty |
| Cells.EmptyIsNotFormula | ExcelViewerV2/Model/CellModel.cs:23-91 | an empty cell is never a formula |
| Sheet.SpreadsheetModel.constructor | ExcelViewerV2/Model/SpreadsheetModel.cs:60-86 | a new sheet has the given size; each row is 22 high; each column is 100 wide when there is a row; each cell is a fresh, blank, unshared cell; grid lines are shown and the sheet is visible |
| Sheet.SpreadsheetModel.FillRow | ExcelViewerV2/Model/SpreadsheetModel.cs:75-81 | the inner loop gives one row fresh blank cells, sets the widths while filling the first row, and keeps cells unshared |
| Sheet.SpreadsheetModel.At | ExcelViewerV2/Model/SpreadsheetModel.cs:92 | the indexer returns the cell exactly when the position is inside the sheet |
| Sheet.SpreadsheetModel.SetCell | ExcelViewerV2/Model/SpreadsheetModel.cs:99-111 | outside the sheet nothing changes; inside, the cell's raw text becomes the value and the sheet is recalculated; a non-formula value then shows as itself |
| Sheet.SpreadsheetModel.Recalculate | ExcelViewerV2/Model/SpreadsheetModel.cs:117-120 | raw contents stay; shown values become `Recalculated` |
| Sheet.SpreadsheetModel.EnumerateCells | ExcelViewerV2/Model/SpreadsheetModel.cs:126-131 | every cell paired with its position, in row-major order |
| SheetLaws.PositionsLength | ExcelViewerV2/Model/SpreadsheetModel.cs:126-131 | the enumeration has rows x columns entries |
| SheetLaws.PositionAt | ExcelViewerV2/Model/SpreadsheetModel.cs:126-131 | entry r x columns + c is (r, c) |
| SheetLaws.PositionsInRange | ExcelViewerV2/Model/SpreadsheetModel.cs:126-131 | every enumerated position lies inside the sheet |
| SheetLaws.PositionsDistinct | ExcelViewerV2/Model/SpreadsheetModel.cs:126-131 | no position is enumerated twice |
| Commands.Command.Execute | ExcelViewerV2/Core/Commands/CellEditCommand.cs:18-21 | the cell's raw and shown text become the new value; wrapping is kept |
| Commands.Command.Undo | ExcelViewerV2/Core/Commands/CellEditCommand.cs:23-26 | the cell's raw and shown text become the old value; wrapping is kept |
| Commands.Executed | ExcelViewerV2/Core/Commands/CellTextChangeCommand.cs:19 | the state after executing: both texts are the target value |
| Commands.Undone | ExcelViewerV2/Core/Commands/CellTextChangeCommand.cs:20 | the state after undoing: both texts are the original value |
| Commands.ExecuteIdempotent | ExcelViewerV2/Core/Commands/CellEditCommand.cs:18-21 | executing twice is the same as executing once |
| Commands.UndoAfterExecute | ExcelViewerV2/Core/Commands/CellEditCommand.cs:18-26 | undo after execute restores the original value, whatever the cell held before |
| Commands.ExecuteAfterUndo | ExcelViewerV2/Core/Commands/CellEditCommand.cs:18-26 | execute after undo is the same as execute |
| UndoRedo.AfterExecute | Core/UndoRedo/UndoManager.cs:11-16 | the command goes on top of the undo stack and the redo stack is emptied |
| UndoRedo.AfterUndo | Core/UndoRedo/UndoManager.cs:18-26 | with an empty undo stack nothing changes; otherwise its top moves to the redo stack; the number of commands is kept |
| UndoRedo.AfterRedo | Core/UndoRedo/UndoManager.cs:28-36 | the mirror image of `AfterUndo` |
| UndoRedo.UndoManager.constructor | Core/UndoRedo/UndoManager.cs:8-9 | a new manager has nothing to undo and nothing to redo |
| UndoRedo.UndoManager.Execute | Core/UndoRedo/UndoManager.cs:11-16 | runs the command on its cell, then updates the stacks as `AfterExecute` |
| UndoRedo.UndoManager.Undo | Core/UndoRedo/UndoManager.cs:18-26 | updates the stacks as `AfterUndo` and undoes the moved command on its cell |
| UndoRedo.UndoManager.Redo | Core/UndoRedo/UndoManager.cs:28-36 | updates the stacks as `AfterRedo` and re-executes the moved command |
| UndoRedo.UndoManager.Clear | Core/UndoRedo/UndoManager.cs:38-42 | both stacks become empty |
| UndoLaws.UndoThenRedo | Core/UndoRedo/UndoManager.cs:18-36 | redo after undo restores the stacks |
| UndoLaws.RedoThenUndo | Core/UndoRedo/UndoManager.cs:18-36 | undo after redo restores the stacks |
| UndoLaws.ExecuteForgetsRedo | Core/UndoRedo/UndoManager.cs:11-31 | after a new command there is nothing to redo |
| UndoLaws.UndoTimesMoves | Core/UndoRedo/UndoManager.cs:18-26 | k undos move the top k commands to the redo stack in reverse order |
| UndoLaws.RedoTimesMoves | Core/UndoRedo/UndoManager.cs:28-36 | k redos move the top k commands back to the undo stack in reverse order |
| UndoLaws.UndoRedoTimes | Core/UndoRedo/UndoManager.cs:18-36 | k undos followed by k redos restore the stacks |
| Editing.EditSession.constructor | ExcelViewerV2/Core/UndoRedo/EditSession.cs:11-16 | a session records the cell's shown text as both original and current value, so it starts unchanged |
| Editing.EditSession.Update | ExcelViewerV2/Core/UndoRedo/EditSession.cs:18-21 | the current value becomes the new one (null read as ""), and the session is changed exactly when that differs from the original |
| Editing.EditSession.HasChanged | ExcelViewerV2/Core/UndoRedo/EditSession.cs:23 | changed exactly when the current value differs from the original |
| Results.SearchResult.ToString | ExcelViewerV2/Search/SearchResult.cs:18 | sheet name, '!', 1-based row and column separated by ':', an arrow, the text; the location part reads back as the row and column |
| Results.SplitAt | ExcelViewerV2/Search/SearchResult.cs:18 | splitting at the first separator reassembles the text |
| Results.LocationRoundTrip | ExcelViewerV2/Search/SearchResult.cs:18 | the location text of a result reads back as its 0-based row and column |
| SearchService.SpreadsheetSearchService.FindAll | Search/SpreadsheetSearchService.cs:14-46 | the results are `Found` over a view of the sheets taken when the search starts |
| SearchService.FindIn | Search/SpreadsheetSearchService.cs:17-45 | the loop over the sheets computes `Found` |
| SearchService.ScanSheet | Search/SpreadsheetSearchService.cs:26-42 | one sheet gives the results of its hits; a hidden sheet gives none |
| SearchService.ScanRow | Search/SpreadsheetSearchService.cs:30-41 | one row gives the results of its non-empty matching cells, left to right |
| SearchLaws.HitsExactly | Search/SpreadsheetSearchService.cs:24-43 | the hits are exactly the non-empty matching cells of the visible sheets, each once, ordered by sheet, row and column |
| SearchLaws.SheetHitsExactly | Search/SpreadsheetSearchService.cs:26-42 | within one sheet: exactly its qualifying cells if visible, none if hidden, in order |
| SearchLaws.OccursMeansSlice | Search/SpreadsheetSearchService.cs:37 | `IndexOf(query) >= 0` holds exactly when the query is a slice of the text |
| SearchLaws.CaseIgnored | Search/SpreadsheetSearchService.cs:20-22 | without matchCase, the letter case of neither the text nor the query matters |
| Headers.TruncMod | ExcelViewerV2/Helpers/HeaderRenderer.cs:109 | C#'s `%` agrees with Euclidean remainder for non-negative operands, and is never positive for a negative dividend |
| Headers.GetExcelColumnName | ExcelViewerV2/Helpers/HeaderRenderer.cs:103-115 | the do-while loop computes `ColumnName`: the bijective base-26 letters of index + 1, or one character at or below 'A' for a negative index |
| Headers.ColumnNameExamples | ExcelViewerV2/Helpers/HeaderRenderer.cs:103-115 | 0 is "A", 25 is "Z", 26 is "AA" |
| Headers.ColumnNameIsLetterPartOfName | ExcelViewerV2/Helpers/HeaderRenderer.cs:103-115 | the header caption is the letter part of the cell names in that column |
| Headers.ColumnNameReadsBack | ExcelViewerV2/Helpers/HeaderRenderer.cs:103-115 | reading a caption back with the address parser gives the index |
| GridControl.Offsets | ExcelViewerV2/Controls/ExcelLikeGrid.cs:82-89 | the offsets have one more entry than there are sizes, start at 0, and entry i is the total size of the items before i |
| GridControl.BuildOffsetArray | ExcelViewerV2/Controls/ExcelLikeGrid.cs:82-89 | each loop fills a new array with the `Offsets` of the sizes |
| GridControl.ExcelLikeGrid.BuildOffsets | ExcelViewerV2/Controls/ExcelLikeGrid.cs:78-90 | row offsets come from the row heights and column offsets from the column widths, in new arrays |
| GridControl.ExcelLikeGrid.constructor | ExcelViewerV2/Controls/ExcelLikeGrid.cs:61-76 | a new grid is consistent, has no model (and so no offsets) and is not scrolled |
| GridControl.ExcelLikeGrid.SetModel | ExcelViewerV2/Controls/ExcelLikeGrid.cs:32-59 | attaching a model builds its offsets; detaching drops them |
| GridControl.FindIndex | ExcelViewerV2/Controls/ExcelLikeGrid.cs:92-109 | -1 without offsets; otherwise an index in 0 .. max(0, Length - 2), which for sorted offsets is the `Slot` of the value |
| GridControl.SlotBrackets | ExcelViewerV2/Controls/ExcelLikeGrid.cs:99-108 | for sorted offsets and offsets[0] <= v < offsets[Length - 1], the slot i satisfies offsets[i] <= v < offsets[i + 1] |
| GridControl.SlotBelowFirst | ExcelViewerV2/Controls/ExcelLikeGrid.cs:108 | a value below the first offset falls in slot 0 |
| GridControl.SlotBeyondLast | ExcelViewerV2/Controls/ExcelLikeGrid.cs:99-108 | a value at or beyond the last offset falls in the last slot, Length - 2 |
| GridControl.OffsetsSorted | ExcelViewerV2/Controls/ExcelLikeGrid.cs:85-89 | the offsets of non-negative sizes are sorted, so the search's bracket property applies to them |
| GridControl.CountIsPrefix | ExcelViewerV2/Controls/ExcelLikeGrid.cs:99-106 | in a sorted sequence the entries at most v are exactly a prefix |
| GridControl.ExcelLikeGrid.HitTestCell | ExcelViewerV2/Controls/ExcelLikeGrid.cs:230-250 | (-1, -1, Empty) without offsets or when an index is outside the model; otherwise the cell and its rectangle; a non-empty model always gets a cell; for sorted offsets the cell is the slot of each scrolled coordinate |
| Printing.PageEnd | ExcelViewerV2/Printing/SpreadsheetPrinter.cs:57-67 | a page takes at least one row; its rows fit in the usable height unless it is a single taller row; and a fitting page could not take the next row |
| Printing.Paginate | ExcelViewerV2/Printing/SpreadsheetPrinter.cs:55-79 | the pages are non-empty, consecutive, cover rows 0 .. Rows - 1, and each fits and is full |
| Printing.Print | ExcelViewerV2/Printing/SpreadsheetPrinter.cs:37-79 | a non-positive page size is an error; otherwise the pages are paginated for the page height minus the top and bottom margins |
| Printing.CreateSubModel | ExcelViewerV2/Printing/SpreadsheetPrinter.cs:98-120 | the sub-sheet has endRow - startRow rows, the same columns and widths, the rows' heights shifted by startRow, the very same cell objects, and the same grid-line setting |
| Printing.CopyRow | ExcelViewerV2/Printing/SpreadsheetPrinter.cs:109-111 | one row of the page takes the cells of the shifted sheet row, and no other row changes |
| Printing.CopiedDistinct | ExcelViewerV2/Printing/SpreadsheetPrinter.cs:109-111 | cells copied from distinct positions of a sheet are still unshared |
| PrintingLaws.PageOfRow | ExcelViewerV2/Printing/SpreadsheetPrinter.cs:55-79 | every row lies on some page |
| PrintingLaws.OnePagePerRow | ExcelViewerV2/Printing/SpreadsheetPrinter.cs:55-79 | no row lies on two pages |
| PrintingLaws.PageEndUnique | ExcelViewerV2/Printing/SpreadsheetPrinter.cs:60-67 | with non-negative heights a page's start fixes its end |
| PrintingLaws.PaginationUnique | ExcelViewerV2/Printing/SpreadsheetPrinter.cs:55-79 | with non-negative heights the greedy pagination is the only split into pages that fit and are full |

## Left out

- Floating point: doubles are `real`. Rounding, NaN and infinities are not modelled, so `EvaluatorLaws.DivisionByNonZero` holds exactly.
- Culture: `double.Parse`, `double.TryParse` and `double.ToString` are the two functions of a `NumberCulture` value, passed in explicitly. The model fixes nothing about them.
- Integer width: `int` is unbounded. The int32 overflow of `CellAddress.Parse` on very long letter runs, and of `row + 1`, is not modelled.
- Address.Parse: `int.Parse` is modelled as an optional sign followed by ASCII digits. Surrounding white space and overflow are not modelled.
- Strings.ParseInt: accepts only ASCII digits after an optional sign; the leading and trailing white space and the int32 overflow failure of `int.Parse` are not modelled.
- Cells.CellModel.IsFormula and Cells.IsFormulaText: `RawContent.StartsWith("=")` is a culture-sensitive comparison in C#, which skips leading characters that have no collation weight (a soft hyphen, say), so "\u00AD=1" is a formula there. The model tests the first character ordinally, and so treats such a cell as plain text.
- Character classes are ASCII: `char.IsLetter`, `char.IsWhiteSpace`, `ToUpper`, the regex `\d` and ordinal case-insensitive comparison. Unicode letters and case folding are not modelled.
- Exceptions are `Result` values (`Failure`). The engine's `catch` turns any `Failure` into "#ERR"; the kind of exception is not kept.
- Sheet.SpreadsheetModel.constructor: takes the number culture explicitly, for the engine it creates. A negative size, on which C# throws, is excluded by the `nat` type.
- Sheet.SpreadsheetModel.SetCell and Engine.FormulaEngine.RecalculateAll: the contracts do not state that each cell's wrapping and font properties stay unchanged.
- Cell formatting: fonts, brushes, alignment, rotation, borders, hyperlinks and images of `CellModel` and `SpreadsheetModel` are data with no logic and are not modelled. `CellModel` keeps only `Wrapping`, which `CanOverflow` reads.
- The `IUndoableCommand` interface is modelled as a datatype with the two command kinds.
- Editing.EditSession.constructor: `cell.Text ?? ""` is the shown value itself, because a shown value is never null in the model.
- SearchService.SpreadsheetSearchService.FindAll: the search reads the sheets and changes nothing. It is stated over a view of the sheets taken at the start, and its loops run over that view: `FindIn` over sheets, `ScanSheet` over rows and `ScanRow` over columns.
- `string.IndexOf` with an ordinal comparison is modelled by `Search.Occurs`, with the match position left implicit.
- Sheet.SpreadsheetModel.FillRow, Printing.PageEnd and Printing.CopyRow: each is the inner loop of its C# method, written as a method of its own.
- GridControl.ExcelLikeGrid.SetModel: only the offsets part of the `Model` setter is modelled. Search highlights, the text renderer, the editor controller, scroll-viewer hooks and invalidation are WPF state.
- GridControl.ExcelLikeGrid.HitTestCell: the point is given as two coordinates. The rest of the control is rendering, scrolling and mouse handling, and is not modelled: `OnRender`, `MeasureOverride` and `HorizontalOffset`/`VerticalOffset` updates.
- Printing.Print: the print dialog, page rendering (`AddPage`), the report log and the crash report are I/O. The page size is a parameter. The result is the list of row ranges, and each page's sub-sheet is `CreateSubModel`. The `null` model check is expressed by the non-null parameter type.
- Printing.CreateSubModel: copying the watermark, header and footer images is not modelled.
- Rendering, file loading and saving, dialogs and the main window are not part of this model.
