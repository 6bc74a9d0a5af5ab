# Bank statement parsers, modelled in Dafny

The repository turns the text of bank statements into movement rows
`{Fecha, Referencia, Importe, Saldo}` and prints a per-reference summary. There are
two parsers.

- **Santander**: `parse_pdf_to_movimientos` and `_clean_money` in
  `App_STDR_OCR_PDF_Extract.py`.
  - It registers the "Saldo Inicial" balance once.
  - It reads movement lines that carry a debit or a credit column.
  - A debit is negated, and the sign flips when the balance rose.
  - An undated line inherits the last explicit date.
  - A transfer header is held back until its "De…/A…" detail line arrives.
- **HSBC**: the module-level loop of
  `EstudioDM_HSBC_OCR_PDF_Extract_Movements_v06.py`.
  - It registers the "SALDO ANTERIOR" balance once.
  - It reads dated and undated movement lines.
  - Each amount is the change in balance, rounded to cents.

Both scripts then summarise the rows after the first: a count and a sum per
reference, plus a TOTAL row (`build_summary` and `summary`).

## Modules

- `base.dfy`, module `Base`: `Option`, `Result`, and the `Error` cases.
  - Each error is a Python exception the source lets escape.
  - `MalformedAmount` is `float()` raising ValueError.
  - `NoOpeningBalance` is `saldo - None` raising TypeError.
  - `MissingColumn` is a KeyError on an empty frame.
  - `NoMovementRows` is an IndexError from `.iloc[-1]`.
- `text.dfy`, module `Text`: the string methods the normalisers use.
  - `str.replace` with one-character patterns, `str.strip` and ASCII lower-casing.
  - Decimal digit strings and thousands grouping.
- `money.dfy`, module `Money`: the two money conversions.
  - `_clean_money` and `float(token.replace(",", ""))`.
  - Python's `float()` on plain decimal literals. `float()` strips less than
    `str.strip()`: the information separators U+001C-U+001F count as whitespace for
    `str.strip()` but make `float()` raise.
  - `round(x, 2)`, with ties to even.
  - Values are exact rationals (`real`).
- `worked.dfy` (module `Worked`) and `statement_lines.dfy` (module `StatementLines`): concrete
  tokens and concrete statement lines.
- `ledger.dfy`, module `Ledger`: the movement row, the opening-balance row, and the
  sums the summaries take.
- `santander.dfy`, module `Santander`: the Santander loop body as a pure
  `Step(state, line)`, folded over the statement's lines by `Run` and `Parse`.
- `hsbc.dfy`, module `Hsbc`: the same for the HSBC loop.
- `summary.dfy`, module `Summary`: the group-by-reference tables of both scripts, and
  the HSBC report figures.

Regular expressions are not executed. Each line arrives already classified: what the
opening-balance pattern, each movement pattern and the transfer-detail pattern would
capture from it. The step then applies the source's priority order and state guards to
those captures. HSBC amount captures are required, where a property needs it, to have
the shape the patterns at lines 143–164 admit. `Money.IsUsAmountToken` allows any mix of
digits and commas before the point, so it covers every such capture.

Three behaviours of the code are easy to misread, and the model keeps the code's:

- **Santander debit sign.** A debit token `"-$ 70.833,71"` is read by `_clean_money`
  as -70833.71, and line 88 negates a debit-column amount, so the row records
  +70833.71 when the balance falls. `StatementLines.SantanderDebit` proves that result.
- **HSBC movement before the opening balance.** Lines 196 and 212 subtract the previous balance,
  which is still `None`, so the loop stops with a TypeError. The model returns
  `Err(NoOpeningBalance)` rather than a zero amount.
- **The first output row.** For HSBC the first row of a non-empty output is always the
  opening-balance row (`Hsbc.ParseOpensWithBalance`). For Santander it is not: a movement
  line met before "Saldo Inicial" is emitted first (`Santander.MovementFirst`). See
  Findings.

## Model

| member | source | states |
|---|---|---|
| Text.RemoveCount | App_STDR_OCR_PDF_Extract.py:41 | `replace(c, "")` leaves no `c`, and shortens the text by exactly the number of `c`s |
| Text.Remove | App_STDR_OCR_PDF_Extract.py:41 | `replace(c, "")` leaves no `c` and never lengthens the text |
| Text.RemoveMembers | App_STDR_OCR_PDF_Extract.py:41 | `replace(c, "")` keeps every other character: it occurs afterwards exactly when it occurred before |
| Text.Replace | App_STDR_OCR_PDF_Extract.py:41 | `replace(a, b)` keeps the length and changes exactly the positions that held `a`, each to `b` |
| Text.CountReplace | App_STDR_OCR_PDF_Extract.py:41 | `replace(a, b)` turns the `a`s into `b`s and changes no other character's count |
| Text.StripKeepsCount | App_STDR_OCR_PDF_Extract.py:41 | `strip()` removes only whitespace, so the count of every other character is kept |
| Text.StripSubset | App_STDR_OCR_PDF_Extract.py:41 | `strip()` introduces no character |
| Text.Strip | App_STDR_OCR_PDF_Extract.py:41 | `strip()` never lengthens the text and leaves it neither starting nor ending with whitespace |
| Text.StripSpan | App_STDR_OCR_PDF_Extract.py:41 | `strip()` keeps one contiguous stretch of the text and drops only whitespace before and after it |
| Text.AsciiLower | App_STDR_OCR_PDF_Extract.py:99 | lower-casing keeps the length and maps each character on its own: capitals `A`-`Z` to small letters, every other character unchanged |
| Text.RemoveGroupSeparators | EstudioDM_HSBC_OCR_PDF_Extract_Movements_v06.py:179 | deleting the thousands separators from grouped digits gives the digits back |
| Money.ParseFloatShape | App_STDR_OCR_PDF_Extract.py:40-42 | `float()` accepts only what is, once stripped, an optionally signed decimal literal, and rejects any text holding an information separator U+001C-U+001F |
| Money.ParseFloatNeeds | App_STDR_OCR_PDF_Extract.py:40-42 | whatever `float()` accepts has at most one point and some digit |
| Money.CleanArgPoints | App_STDR_OCR_PDF_Extract.py:41 | after the replacements, the points of the token are exactly its former commas |
| Money.CleanArgDigits | App_STDR_OCR_PDF_Extract.py:41 | the replacements create no digit |
| Money.CleanMoney | App_STDR_OCR_PDF_Extract.py:39-42 | `_clean_money` fails on a token with two or more commas and on a token without a digit |
| Money.CleanArgFormatted | App_STDR_OCR_PDF_Extract.py:41 | the four replacements turn a Santander-laid-out amount (sign, `$`, dotted thousands, decimal comma) into the plain signed literal |
| Money.ParseFloatSignedCents | App_STDR_OCR_PDF_Extract.py:40 | `float()` reads `[-]digits.dd` as its signed value |
| Money.CleanMoneyLayout | App_STDR_OCR_PDF_Extract.py:39-42 | round trip: `_clean_money` of the Santander layout of digits `d` and cents `t` is their signed value |
| Money.UsMoneyLayout | EstudioDM_HSBC_OCR_PDF_Extract_Movements_v06.py:179 | round trip: deleting commas and reading the HSBC layout of `d` and `t` gives their value |
| Money.UsMoney | EstudioDM_HSBC_OCR_PDF_Extract_Movements_v06.py:179 | the HSBC conversion fails on a token with two or more points and on a token without a digit |
| Money.UsTokenConverts | EstudioDM_HSBC_OCR_PDF_Extract_Movements_v06.py:195 | every token of the captured shape converts, to the value its digits denote |
| Money.UsTokenIsCents | EstudioDM_HSBC_OCR_PDF_Extract_Movements_v06.py:141-166 | every amount the three patterns capture converts, and to a whole number of cents |
| Money.Round2 | EstudioDM_HSBC_OCR_PDF_Extract_Movements_v06.py:196 | `round(x, 2)` is a whole number of cents within half a cent of `x`, `x` itself when `x` is whole cents, and the even cent on a tie |
| Worked.DebitToken | App_STDR_OCR_PDF_Extract.py:39-42 | `_clean_money("-$ 70.833,71")` is -70833.71 |
| Worked.CreditToken | App_STDR_OCR_PDF_Extract.py:39-42 | `_clean_money("$ 1.234,56")` is 1234.56 |
| Worked.BalanceToken | App_STDR_OCR_PDF_Extract.py:39-42 | `_clean_money("-$ 1.234,00")` is -1234 |
| Worked.UsToken | EstudioDM_HSBC_OCR_PDF_Extract_Movements_v06.py:179 | `float("1,234.56".replace(",", ""))` is 1234.56 |
| Ledger.MovementRows | App_STDR_OCR_PDF_Extract.py:134-136 | the rows with an amount are all rows but the opening-balance ones, and none of them is an opening-balance row |
| Ledger.MovementRowsMembers | App_STDR_OCR_PDF_Extract.py:134-136 | a row is among the movement rows exactly when it is one of the rows and not an opening-balance row |
| Ledger.MovementRowsAppend | App_STDR_OCR_PDF_Extract.py:134-136 | keeping the movement rows of `a + b` keeps those of `a`, then those of `b` |
| Santander.ColumnSign | App_STDR_OCR_PDF_Extract.py:84-88 | a debit amount is negated and a credit amount kept as parsed; a nonzero amount keeps its sign exactly when it is a credit |
| Santander.BalanceCorrection | App_STDR_OCR_PDF_Extract.py:93-95 | the amount keeps its size; a nonzero amount is negated exactly when a previous balance exists and the new balance is above it |
| Santander.Opening | App_STDR_OCR_PDF_Extract.py:57-69 | the "Saldo Inicial" line succeeds exactly when its token converts, and fails naming the token otherwise. It emits only the "Saldo Inicial" row with that balance, which becomes the previous balance, and marks the opening as registered |
| Santander.MovementRow | App_STDR_OCR_PDF_Extract.py:74-113 | the row has the line's date if it has one and the last explicit date otherwise, the stripped text, the balance, and the parsed amount negated exactly when it is a debit and the balance did not rise, or a credit and the balance rose |
| Santander.MovementStep | App_STDR_OCR_PDF_Extract.py:72-114 | a movement line succeeds exactly when both its tokens parse. Then its balance becomes the previous one. It emits no opening-balance row, and it emits nothing exactly when it is a transfer header |
| Santander.Place | App_STDR_OCR_PDF_Extract.py:99-113 | a transfer header is held as `current_row` with the flag set. Any other row is emitted alone and clears the flag. Either way its date and balance become current |
| Santander.DetailStep | App_STDR_OCR_PDF_Extract.py:117-125 | a detail line emits one row exactly when a header is pending with a previous balance. It then only clears the flag; otherwise it changes nothing |
| Santander.Step | App_STDR_OCR_PDF_Extract.py:55-125 | one line emits at most one row and fails only on an unparsable amount. The flag is set afterwards exactly when it was set before or the line holds the opening capture. An opening-balance row is emitted exactly when the flag goes from unset to set. Before registration, a line with the opening capture succeeds exactly when its token converts, emits only the "Saldo Inicial" row with that balance and makes it the previous balance. Reachable states stay reachable |
| Santander.Run | App_STDR_OCR_PDF_Extract.py:53-127 | a run over any lines fails only on an unparsable amount and emits at most one row per line |
| Santander.Parse | App_STDR_OCR_PDF_Extract.py:44-127 | parsing fails only on an unparsable amount; a parsed statement holds one "Saldo Inicial" row if some line holds the opening pattern and none otherwise |
| Santander.RunAppend | App_STDR_OCR_PDF_Extract.py:53-55 | reading pages one after another is reading their lines in order: a run over `a + b` is a run over `a`, then over `b` |
| Santander.RunInvariant | App_STDR_OCR_PDF_Extract.py:57-69 | over any lines: only amount errors, at most one row per line, and exactly one "Saldo Inicial" row when some line holds it and none was registered |
| Santander.ParseSentinels | App_STDR_OCR_PDF_Extract.py:57-69 | a parsed statement holds one opening-balance row if some line holds the pattern and none otherwise |
| Santander.OpeningIgnoredOnceRegistered | App_STDR_OCR_PDF_Extract.py:57-59 | once registered, the opening-balance capture changes nothing: the line falls through to the movement pattern |
| Santander.MovementStepOk | App_STDR_OCR_PDF_Extract.py:72-113 | a movement line whose two tokens convert succeeds, and the row it builds, emitted or held back, has the line's or the last explicit date, the stripped text, the balance token's value, and the corrected amount of `MovementRow` |
| Santander.RowAmount | App_STDR_OCR_PDF_Extract.py:84-95 | the recorded amount is the parsed one or its negation, and it is negated exactly when the column is a debit and the balance did not rise, or it is a credit and the balance rose |
| Santander.DebitReconciles | App_STDR_OCR_PDF_Extract.py:84-95 | when a debit's size is the size of the balance change, the recorded amount is that change with its sign. Without a previous balance, a debit is just negated |
| Santander.CreditOpposes | App_STDR_OCR_PDF_Extract.py:84-95 | when a credit's size is the size of the balance change, the recorded amount is the change with the opposite sign |
| Santander.DebitWithoutPrevious | App_STDR_OCR_PDF_Extract.py:84-95 | with no previous balance, a debit token printed with its own minus sign is recorded as a positive amount |
| Santander.RunDate | App_STDR_OCR_PDF_Extract.py:74-80 | the date carried forward is the last explicit date of a movement line (reference definition `LastDate`) |
| Santander.StepDate | App_STDR_OCR_PDF_Extract.py:74-80 | a step changes the date only on a movement line with an explicit date |
| Santander.HeaderHeld | App_STDR_OCR_PDF_Extract.py:99-102 | a transfer header emits nothing and leaves a pending row |
| Santander.DetailMerges | App_STDR_OCR_PDF_Extract.py:117-125 | a detail line after a header emits the header row with `" - "` and the line appended to its reference, and clears the flag |
| Santander.DetailWithoutHeader | App_STDR_OCR_PDF_Extract.py:117-118 | a detail line with nothing pending changes nothing |
| Santander.TransferMerged | App_STDR_OCR_PDF_Extract.py:99-125 | header, detail, detail: nothing, then the merged row, then nothing |
| Santander.HeaderAtEndLost | App_STDR_OCR_PDF_Extract.py:99-102 | a header on the last line is never emitted: the output is what it was without it |
| Santander.StepIgnoresPending | App_STDR_OCR_PDF_Extract.py:99-125 | a header held back makes no difference to a line that is not a transfer detail: same success, same rows, same state once the pending header is set aside |
| Santander.RunIgnoresPending | App_STDR_OCR_PDF_Extract.py:99-125 | the same over any run of lines without a transfer detail |
| Santander.HeaderNeverMerged | App_STDR_OCR_PDF_Extract.py:99-125 | a transfer header that no detail line follows, wherever it stands, is never emitted: the output is what came before it followed by what the later lines emit on their own |
| Santander.MovementFirst | App_STDR_OCR_PDF_Extract.py:57-114 | a statement whose first line is an ordinary movement (not a transfer header) parses to rows whose first row is a movement, not "Saldo Inicial" |
| Hsbc.Previous | EstudioDM_HSBC_OCR_PDF_Extract_Movements_v06.py:196 | the subtraction has a previous balance to use exactly when one is registered, and raises otherwise |
| Hsbc.Entered | EstudioDM_HSBC_OCR_PDF_Extract_Movements_v06.py:194-204 | the movement row carries the current date, the stripped reference and the balance; its amount is whole cents within half a cent of the change from the previous balance; only the previous balance changes |
| Hsbc.Record | EstudioDM_HSBC_OCR_PDF_Extract_Movements_v06.py:194-204 | a movement succeeds exactly when its balance converts and a previous balance exists, and otherwise names which failed. It emits one row carrying the current date, the stripped reference, the converted balance and the change in balance rounded to cents. Its balance becomes the previous one |
| Hsbc.Opening | EstudioDM_HSBC_OCR_PDF_Extract_Movements_v06.py:176-188 | the SALDO ANTERIOR line emits the opening-balance row with the converted balance and registers it as previous |
| Hsbc.Step | EstudioDM_HSBC_OCR_PDF_Extract_Movements_v06.py:175-220 | one line emits at most one row and fails only on an amount or a missing previous balance. A line that emits nothing changes nothing. Reachable states stay reachable |
| Hsbc.Run | EstudioDM_HSBC_OCR_PDF_Extract_Movements_v06.py:168-220 | a run over any lines fails only on an amount or a missing previous balance, and emits at most one row per line |
| Hsbc.Parse | EstudioDM_HSBC_OCR_PDF_Extract_Movements_v06.py:66-220 | parsing fails only on an amount or a missing previous balance; a parsed statement is chained (opening row first, each later amount the change from the row before) and has at most one row per line |
| Hsbc.FailureSticks | EstudioDM_HSBC_OCR_PDF_Extract_Movements_v06.py:169-172 | an exception ends the script: once a prefix of the lines fails, the whole parse fails the same way |
| Hsbc.StepFollows | EstudioDM_HSBC_OCR_PDF_Extract_Movements_v06.py:175-220 | every step does one of three things: nothing; the opening row when none is registered; a movement row whose amount is the change from the previous balance, its balance becoming the previous one |
| Hsbc.RunChained | EstudioDM_HSBC_OCR_PDF_Extract_Movements_v06.py:176-220 | every parse is chained: the opening row first, then rows whose amount is the rounded change from the row before; the loop's previous balance is the last row's |
| Hsbc.ParseOpensWithBalance | EstudioDM_HSBC_OCR_PDF_Extract_Movements_v06.py:176-188 | a non-empty parse starts with the SALDO ANTERIOR row, and no later row is an opening-balance row |
| Hsbc.StepCents | EstudioDM_HSBC_OCR_PDF_Extract_Movements_v06.py:175-220 | on well-formed lines a step fails only for want of a previous balance, and records only whole-cent balances |
| Hsbc.RunCents | EstudioDM_HSBC_OCR_PDF_Extract_Movements_v06.py:175-220 | a parse of well-formed lines fails only for want of an opening balance, and every balance in it is whole cents |
| Hsbc.Telescope | EstudioDM_HSBC_OCR_PDF_Extract_Movements_v06.py:196-204 | over chained whole-cent rows, the amounts of the first `k` rows add up to row `k - 1`'s balance less the opening balance |
| Hsbc.Reconciles | EstudioDM_HSBC_OCR_PDF_Extract_Movements_v06.py:106-109 | the statement reconciles: the movements' amounts add up exactly to the final balance less the initial balance |
| Hsbc.OpeningIgnoredOnceRegistered | EstudioDM_HSBC_OCR_PDF_Extract_Movements_v06.py:176-177 | once registered, the SALDO ANTERIOR capture changes nothing |
| Hsbc.WithoutColumns | EstudioDM_HSBC_OCR_PDF_Extract_Movements_v06.py:151-152 | erasing the debit and credit captures keeps which patterns matched, the SALDO ANTERIOR capture, the date, the reference and the balance token |
| Hsbc.ColumnsIgnored | EstudioDM_HSBC_OCR_PDF_Extract_Movements_v06.py:191-220 | the debit and credit captures never affect the result |
| Hsbc.MovementDates | EstudioDM_HSBC_OCR_PDF_Extract_Movements_v06.py:191-220 | a dated line emits one row with its own date. An undated line after a date emits one row with the current date verbatim. The dated form wins |
| Hsbc.RunDate | EstudioDM_HSBC_OCR_PDF_Extract_Movements_v06.py:193 | the current date is that of the last dated movement line (reference definition `LastDate`) |
| Hsbc.StepDate | EstudioDM_HSBC_OCR_PDF_Extract_Movements_v06.py:193 | a step changes the date only on a dated movement line |
| Hsbc.UndatedBeforeDateDropped | EstudioDM_HSBC_OCR_PDF_Extract_Movements_v06.py:208-209 | before any date, an undated line is dropped with no change |
| Hsbc.QuietPrefix | EstudioDM_HSBC_OCR_PDF_Extract_Movements_v06.py:175-220 | lines with neither the SALDO ANTERIOR pattern nor a dated movement, read from the start, emit nothing and change nothing |
| Hsbc.MovementBeforeOpening | EstudioDM_HSBC_OCR_PDF_Extract_Movements_v06.py:191-196 | a dated movement with no balance registered raises |
| Hsbc.DatedBeforeOpening | EstudioDM_HSBC_OCR_PDF_Extract_Movements_v06.py:168-196 | a statement whose first dated movement precedes SALDO ANTERIOR fails with no opening balance |
| StatementLines.SantanderDebit | App_STDR_OCR_PDF_Extract.py:84-95 | the debit `"-$ 70.833,71"` whose balance fell from -1000 to `"-$ 1.234,00"` is recorded as +70833.71 |
| StatementLines.HsbcDelta | EstudioDM_HSBC_OCR_PDF_Extract_Movements_v06.py:191-205 | a dated line with balance `"1,234.56"` after 1000.00 has amount 234.56 and sets the date |
| Summary.BeforeTotal | App_STDR_OCR_PDF_Extract.py:138-141 | the key order of `groupby` (Python string order) relates any two distinct references |
| Summary.BeforeTransitive | App_STDR_OCR_PDF_Extract.py:138-141 | the key order is transitive |
| Summary.InsertLookup | App_STDR_OCR_PDF_Extract.py:138-141 | adding a row changes only its reference's group, which counts it and adds its amount |
| Summary.GroupBy | App_STDR_OCR_PDF_Extract.py:138-141 | the groups come out sorted by reference, each once; their counts add up to the number of rows and their sums to the sum of all amounts |
| Summary.GroupByLookup | App_STDR_OCR_PDF_Extract.py:138-141 | a reference has a group exactly when some row carries it; the group holds their count and the sum of their amounts (reference definitions `CountRef`, `SumRef`) |
| Summary.Tabulate | App_STDR_OCR_PDF_Extract.py:138-157 | the table ends with the TOTAL row, which counts every row and sums every amount, after groups sorted by reference |
| Summary.TabulateMeans | App_STDR_OCR_PDF_Extract.py:138-157 | the table is the sorted groups, each reference's count and sum, then the TOTAL row |
| Summary.BuildSummary | App_STDR_OCR_PDF_Extract.py:129-158 | the table is empty exactly when there are no rows; otherwise its TOTAL row counts every row but the first and sums their amounts |
| Summary.BuildSummaryMeans | App_STDR_OCR_PDF_Extract.py:129-158 | a non-empty input gives the table of every row but the first; TOTAL counts them and sums their amounts |
| Summary.HsbcSummary | EstudioDM_HSBC_OCR_PDF_Extract_Movements_v06.py:76-109 | the report exists exactly when there are two rows or more. No rows raises a missing column, and one row leaves no last movement. The total is whole cents |
| Summary.HsbcSummaryMeans | EstudioDM_HSBC_OCR_PDF_Extract_Movements_v06.py:76-109 | the table is that of the rows after the first. Saldo Inicial is the first row's balance and Saldo Final the last row's. The total is within half a cent of the sum of the amounts |
| Summary.MovementRowsSum | App_STDR_OCR_PDF_Extract.py:136-139 | opening-balance rows contribute nothing to the sums |
| Summary.MovementSummary | App_STDR_OCR_PDF_Extract.py:134-157 | the corrected summary is empty exactly when there are no rows; its TOTAL row sums every amount and counts every row but the opening-balance ones |
| Summary.MovementSummaryMeans | App_STDR_OCR_PDF_Extract.py:134-135 | the corrected summary counts and sums every movement row once and no opening-balance row, wherever it stands |
| Summary.SkipAgrees | App_STDR_OCR_PDF_Extract.py:134-135 | skipping the first row is right when it is the only opening-balance row: `build_summary` then equals the corrected summary |
| Summary.FirstMovementDropped | App_STDR_OCR_PDF_Extract.py:134-135 | when the first row is a movement, the TOTAL sum is the movements' sum less its amount, and the TOTAL count is all rows but one where the movements number all rows less the opening-balance rows |
| Summary.FirstMovementDroppedExample | App_STDR_OCR_PDF_Extract.py:134-135 | a purchase before "Saldo Inicial": the table reports "Saldo Inicial" as a reference and no purchase |

## Left out

- PDF text extraction (pdfplumber) and the split into pages and lines: the input is the
  sequence of lines, already stripped.
- The regular expressions themselves: each line arrives as the captures the patterns
  would produce. The Santander movement pattern has two identical alternatives, so in
  practice the credit column never matches. The model keeps both columns because the
  code branches on them.
- The transfer-detail pattern is abstracted to a flag, and the case-insensitive
  SALDO ANTERIOR match to a capture.
- Unicode lower-casing: header detection lower-cases ASCII letters only. The comparison
  still agrees with Python's `lower()`. The only non-ASCII characters whose lower-case
  form holds an ASCII letter are `İ` (U+0130) and the Kelvin sign (U+212A). `İ` becomes
  `i` plus a combining dot, which no header phrase contains. The Kelvin sign becomes `k`,
  which no header phrase contains either.
- Binary floating point: amounts are exact rationals. `round(x, 2)` is modelled as
  exact rounding half to even. `float()` is modelled on plain decimal literals; its
  exponents, `inf`, `nan`, underscores and non-ASCII digits are not.
- Money.ParseFloatShape: states only that what `float()` accepts is a decimal literal.
  The value read is proved only for literals with two decimals
  (`Money.ParseFloatSignedCents`), the only ones the parsers meet.
- The percentage columns `Pct_Importe` and `Pct_Cantidad` (float division and rounding).
- `pd.to_numeric(errors="coerce")`: amounts in the rows are already numbers or absent.
  An absent amount (the opening-balance row's "") becomes NaN, which pandas' sum skips.
  That is modelled as contributing 0.
- The fixed-width text formatting, printing, CSV export, logging, timing, platform
  diagnostics, the Streamlit UI and `App.py`.
- The shape of the HSBC debit and credit captures is not constrained, because the code
  never reads them (`Hsbc.ColumnsIgnored`).

## Findings

| source | as written | input that shows it | evidently intended | confidence | as-written member | corrected member |
|---|---|---|---|---|---|---|
| App_STDR_OCR_PDF_Extract.py:134-135 | `build_summary` drops the first row, assuming it is the "Saldo Inicial" row | a statement whose first movement line comes before its "Saldo Inicial" line: the movement is emitted first, so it is dropped, and "Saldo Inicial" is counted as a reference | leave out the opening-balance row, wherever it stands, and count every movement | not executed | Summary.FirstMovementDropped, Summary.FirstMovementDroppedExample (with Santander.MovementFirst) | Summary.MovementSummary, Summary.MovementSummaryMeans, Summary.SkipAgrees |
