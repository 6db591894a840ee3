# Monthly meal-benefit (VR) payroll pipeline — a Dafny model

This project models the business core of a monthly meal-benefit ("vale-refeição", VR) payroll pipeline. The pipeline runs three stages over a table of employee rows, keyed by the employee identifier `MATRICULA`:

1. **Consolidation** (`ConsolidationAgent`). It deduplicates the active roster by identifier. It left-joins the vacation, dismissal and admission tables, each deduplicated first. It sets the exclusion flags (intern, apprentice, on leave, abroad, dismissed) by identifier membership. It attaches each union's daily rate and workday count.
2. **Validation** (`ValidationAgent`). Its first pass drops rows excluded by a flag, a position or a leave status, and counts each cause. Its second pass applies the dismissal cut-off on day 15 and gives each row its calculation regime (`INTEGRAL`, `PROPORCIONAL`). Its third pass marks vacation rows and turns `INTEGRAL` into `FERIAS`. It then records distributions.
3. **Calculation** (`CalculationAgent`). It computes each row's paid days and daily rate. It derives the total and the 80/20 company/employee split, rounded to the cent, plus an audit note. A row whose rate lookup fails gets an error note instead. It then checks the split and counts rows by union and by regime.

The model also covers the business-rule helpers (`VRBusinessRules`) and the column validators (`DataValidators`). The shared pipeline state is the class `PipelineState.VRState`; each stage's `execute` is a method that updates it in place.

Modules:

- `Wrappers`, `Text`, `Dates`, `Money` and `Seqs` hold helpers:
  - option and result types;
  - Python string operations (`upper`, `strip`, `isdigit`, `in`, `split`, `join`, `int()`, `float()`), restricted to ASCII digits and plain decimal notation (see "## Left out");
  - calendar dates and `%d/%m/%Y` parsing;
  - `int()` truncation and `round(x, 2)`;
  - order-preserving filters, `drop_duplicates`, left merges, `dict(zip(...))` and `value_counts()`.
- `Config` holds the constants of `src/config.py`.
- `Tables` holds the row types.
- `PipelineState`, `Rules`, `Validators`, `Consolidation`, `Validation` and `Calculation` follow the source files.

Behaviour of the code that the model follows:

- **The half-month branch truncates.** The code writes `max(1, int(dias_base * 0.5))` (`src/agents/calculation.py:168`): the floor of half the base, and never less than 1. An odd base loses the half day, so a base of 21 pays 10 days and a base of 1 pays 1.
- **Pro-rated rows are always paid in full.** Validation only ever emits `PROPORCIONAL` for a dismissal day after the 15th, so the half-month branch is unreachable in the pipeline (`Calculation.ProportionalRowsPaidInFull`).
- **The calculation stage always fails.** `CalculationAgent.execute` stores the calculated table, then reads an undefined name `workdays` (`src/agents/calculation.py:55`). Every run that gets that far therefore ends with a `calculation` error and `success=False`, and `Calculation.Execute` states exactly that.
- **Validation keeps its own lists.** Validation checks positions and statuses against inline lists (`src/agents/validation.py:159`, `:165-167`) that differ from the rules helper: the helper's statuses are unaccented and include `AFASTADO`. `Validation.ExclusionAgreesWithRules` relates the two where the status lists do not interfere.
- **The dismissal pass can fail.** When both dismissal columns exist but the first pass leaves no row, the column `ELEGIVEL_VR` is never created, and filtering on it raises `KeyError`. The model records that error (`Validation.RunPasses`).
- **A rate cell holding text fails its own row.** A `VALOR_DIA` cell that holds text makes `valor_dia > 0` raise `TypeError`. That row gets the note `ERRO NO CÁLCULO: …` and zero amounts (`Calculation.FailedRowKeepsZeros`).
- **A dismissal table that spells its date only `DATA DEMISSÃO` fails consolidation.** The code adds `DATA DEMISSÃO` to the columns to keep, renames that column to `DATA_DEMISSAO`, and then selects the kept columns by the old name (`src/agents/consolidation.py:126-131`). pandas raises `KeyError`, so the whole stage records a `consolidation` error (`Consolidation.DismissalPhase`, `Consolidation.Execute`). The error text is pandas' `"['DATA DEMISSÃO'] not in index"`.
- **`is_on_vacation` rejects `Timestamp` values.** Comparing a pandas `Timestamp` with a `date` raises `TypeError`, which the function turns into `False` (`Rules.IsOnVacation`).

## Model

| member | source | states |
|---|---|---|
| PipelineState.VRState.constructor | src/graph/state.py:6-24 | a fresh state holds the loaded files and the month, no stage tables, no errors |
| PipelineState.VRState.RecordError | src/agents/consolidation.py:72-78 | the shared `except` block: the error is appended with its stage, `success` is false, the stage is `<stage>_failed`, and every other field is unchanged |
| Money.Trunc | src/agents/calculation.py:137 | `int(x)` truncates toward zero: the result is within one unit of `x` on the side of zero |
| Money.RoundHalfEven | src/agents/calculation.py:114-116 | the nearest integer, ties to the even one |
| Money.Round2 | src/agents/calculation.py:114-116 | `round(x, 2)`: a whole number of cents within half a cent of `x` |
| Money.SplitWithinCent | src/agents/calculation.py:105-116 | the rounded total and the two rounded shares (80% and 20%) differ by at most one cent |
| Money.FormatParseRoundTrip | src/agents/calculation.py:218 | `float()` of a non-negative amount printed with `:.2f` gives back the amount rounded to the cent |
| Money.NegativeFormatParse | src/agents/calculation.py:218 | `float()` of a negative amount printed with `:.2f` gives back minus its magnitude rounded to the cent |
| Money.Round2Odd | src/agents/calculation.py:114-116 | `round(-x, 2) == -round(x, 2)` |
| Dates.Weekday | src/core/rules.py:151 | `weekday()` is a day number from 0 (Monday) to 6 |
| Dates.NextDay | src/core/rules.py:155-156 | adding one day gives a valid, later date |
| Dates.NextDayOrdinal | src/core/rules.py:155-156 | the next day's ordinal is one more: the loop visits every day in order |
| Dates.ParseDayMonthYear | src/core/rules.py:244-247 | `strptime(s, '%d/%m/%Y')` succeeds only with a valid date |
| Dates.ParseFormatRoundTrip | src/core/rules.py:244-247 | formatting a date as `dd/mm/yyyy` and parsing it back gives the same date |
| Text.Upper | src/core/rules.py:41 | `upper()` on ASCII and Latin-1 text: each character is upper-cased in place, and no lower-case letter of either range remains |
| Text.UpperIdempotent | src/core/rules.py:41 | upper-casing twice is the same as upper-casing once |
| Text.ParseIntRoundTrip | src/core/rules.py:265 | `int(str(n)) == n` |
| Rules.FirstContained | src/core/rules.py:42-44 | the first excluded position, in list order, that the title contains (no earlier one is contained), or none exactly when no position is contained |
| Rules.PositionListsAgree | src/config.py:25 | the configured list excludes exactly the titles containing `DIRETOR`, `GERENTE GERAL` or `PRESIDENTE` |
| Rules.FirstFlag | src/core/rules.py:54-56 | the first set flag in the rule's order (no earlier flag is set), or none exactly when no flag is set |
| Rules.ShouldExcludeEmployee | src/core/rules.py:31-73 | excluded iff the position, a flag or the status excludes; the reason is the position's, else that of the first set flag (intern, apprentice, on leave, abroad) with the identifier, else the status's; a row that is not excluded gets an empty reason |
| Rules.ShouldExcludeByDismissalDate | src/core/rules.py:270-285 | excluded iff the day is at most the cut-off; otherwise `PROPORCIONAL`; the exclusion reason ends with the cut-off day |
| Rules.CalculateVacationAdjustment | src/core/rules.py:287-299 | `max(0, base - vacation)`: never negative, never above a non-negative base |
| Rules.CalculateBenefitValues | src/core/rules.py:203-224 | total is rate × days; the company and employee shares add up to the total, and the company's is four times the employee's |
| Rules.WorkdaysThrough | src/core/rules.py:145-153 | the count of working days among the first n days of the month is at most n |
| Rules.CalculateWorkdaysDynamic | src/core/rules.py:135-158 | the loop counts the working days of the month; an out-of-range year or month, and December 9999, raise the errors `date()` raises |
| Rules.PartialMatch | src/core/rules.py:117-121 | the union lookup `str.contains(name, case=False)` shared by both tables: the first row whose union contains the name ignoring case (no earlier row does), or none exactly when no row does |
| Rules.RegionalWorkdays | src/core/rules.py:123-133 | the regional fallback: 22 for `SP`, 21 for `RS`, 22 for `PR`, 21 for `RJ`, checked in that order, else 22 |
| Rules.GetWorkdaysByUnion | src/core/rules.py:98-133 | an exact table match first, truncated; else the first partial match, truncated; else the regional fallback |
| Rules.ExactMatchIsPartial | src/core/rules.py:112-121 | an exact union match is also a partial one, in either table |
| Rules.FixedRate | src/core/rules.py:172-183 | the rate of the first fixed-map key, in map order, that the name contains (no earlier key is contained), or none exactly when no key is contained |
| Rules.FixedRateAtLeastDefault | src/core/rules.py:172-177 | every fixed rate is at least the default 35.0 |
| Rules.FormattedAmountReadsBack | src/core/rules.py:191 | `float()` reads an amount printed with `:.2f` back as that amount rounded to the cent |
| Rules.GetDailyValueByUnion | src/core/rules.py:160-201 | the fixed map wins; then an exact table match; then the first partial match; then the default; an error only comes from a text cell in the table |
| Rules.IsOnVacation | src/core/rules.py:226-252 | true exactly when both ends are comparable and the cut-off lies between them; a timestamp at either end gives false |
| Rules.IsOnVacationText | src/core/rules.py:243-249 | with both ends written as `dd/mm/yyyy`, on vacation iff start ≤ cut-off ≤ end |
| Rules.GetCutoffDate | src/core/rules.py:254-268 | a parsed month and year give a valid date on the cut-off day |
| Rules.CutoffDateRoundTrip | src/core/rules.py:264-266 | `MM/YYYY` parses to day 15 of that month |
| Validators.ValidateRequiredColumns | src/core/validators.py:29-30 | the missing columns are a subsequence of the required list, exactly those absent; valid iff none is missing |
| Validators.MatriculaCheck | src/core/validators.py:45-54 | a null or malformed identifier contributes one message, a well-formed one none |
| Validators.ValidateMatricula | src/core/validators.py:43-56 | the loop yields one message per invalid element, in order; valid iff every identifier is four or more digits after stripping |
| Validators.InvalidMatriculasInOrder | src/core/validators.py:45-54 | the invalid list is the message of each failing element, in input order |
| Validators.DateCheck | src/core/validators.py:72-84 | a failing cell contributes one message headed `Linha n: `, any other cell none |
| Validators.ValidateDates | src/core/validators.py:70-86 | one message per cell that is text `to_datetime` rejects or neither text nor a timestamp; rejected text does not parse or lies outside the `Timestamp` range; nulls and the null spellings (`""`, `NaT`, `nan`, …) pass; valid iff no cell fails |
| Validators.FormattedDatesPass | src/core/validators.py:76-79 | a column of `dd/mm/yyyy` dates inside the `Timestamp` range passes |
| Validators.OutOfRangeDateReported | src/core/validators.py:79-84 | a well-formed date outside the `Timestamp` range (`OutOfBoundsDatetime`) is reported with its line |
| Validators.NumericIssues | src/core/validators.py:106-119 | one message for a non-number, otherwise one per broken bound, each headed `Linha n: ` |
| Validators.AppendNumericIssues | src/core/validators.py:106-119 | one loop step appends exactly that value's messages |
| Validators.ValidateNumericValues | src/core/validators.py:103-121 | the loop's messages are those of every value in order; valid iff every value is null or a number within the given bounds |
| Validators.NumericIssuesEmptyIff | src/core/validators.py:106-119 | a value contributes nothing iff it is acceptable |
| Validators.NumericReportEmptyIff | src/core/validators.py:105-121 | the column passes iff every value is acceptable |
| Validators.UnboundedReportsNonNumeric | src/core/validators.py:109-119 | without bounds, one message per value that is not a number |
| Validators.CrossedBoundsReportTwice | src/core/validators.py:112-116 | a value below a minimum that exceeds the maximum gets two messages |
| Validators.ValidateDataConsistency | src/core/validators.py:124-146 | reports duplicated identifiers (with the column present) and fully empty rows; valid iff neither occurs |
| Validators.DuplicatesIffShared | src/core/validators.py:137-140 | `duplicated(keep=False)` finds an identifier iff two distinct rows share one |
| Validators.EmptyRowCountZeroIff | src/core/validators.py:144-146 | the empty-row count is zero iff no row is entirely null |
| Consolidation.MergeVacation | src/agents/consolidation.py:91-93 | the left merge keeps every row, in order, with the vacation days of the first row with its identifier |
| Consolidation.MergeDismissals | src/agents/consolidation.py:130-132 | the left merge keeps every row, in order, with the first dismissal row's date |
| Consolidation.MergeAdmissions | src/agents/consolidation.py:141-144 | the left merge keeps every row, in order, with the first admission row's date |
| Consolidation.VacationPhase | src/agents/consolidation.py:87-93 | the vacation step applied to each row |
| Consolidation.DismissalPhase | src/agents/consolidation.py:119-135 | the dismissal step applied to each row; it raises `KeyError` exactly when the date column is spelt only `DATA DEMISSÃO` |
| Consolidation.AdmissionPhase | src/agents/consolidation.py:139-144 | the admission step applied to each row |
| Consolidation.ConsolidatedRowFields | src/agents/consolidation.py:82-147 | a consolidated row keeps its roster fields; vacation days and dates come from the first matching row; each flag is set iff the identifier is in that file's set; absent tables change nothing |
| Consolidation.ConsolidateEmployeeData | src/agents/consolidation.py:82-147 | the loop over the flag files yields, row by row and in order, the consolidated row, and the columns the present tables add; or the `KeyError` of the accented-only dismissal column |
| Consolidation.AddUnionValues | src/agents/consolidation.py:149-170 | `VALOR_DIA` is the union's rate from the last table row with that union, or 35.0; row count unchanged |
| Consolidation.AddWorkdaysByUnion | src/agents/consolidation.py:172-193 | `DIAS_UTEIS_SINDICATO` is the union's count from the last table row, or 22; row count unchanged |
| Consolidation.ConsolidatedIdentifiers | src/agents/consolidation.py:47-49 | after dedup every identifier occurs once, the row count is the number of distinct identifiers, and the order is the roster's |
| Consolidation.UnionColumnsKeepRoster | src/agents/consolidation.py:58-61 | the two union steps leave the roster part of every row unchanged |
| Consolidation.ConsolidateFiles | src/agents/consolidation.py:44-61 | the merge steps give exactly the consolidated table: the deduplicated roster, each row consolidated, then its union's rate and workdays; or the `KeyError` of the accented-only dismissal column |
| Consolidation.ConsolidatedRoster | src/agents/consolidation.py:44-61 | the consolidated table's roster part is the roster deduplicated by identifier: one row per distinct identifier, none twice |
| Consolidation.Execute | src/agents/consolidation.py:28-80 | missing files, a missing `ATIVOS` or a missing identifier column record the matching error, and so does the accented-only dismissal column; otherwise the consolidated table is stored and `total_employees` is its row count; a failure leaves both as they were, and no branch touches the files, the month, or the validation and calculation keys |
| Validation.PositionExcludedIff | src/agents/validation.py:158-159 | the position test is the three-way containment test |
| Validation.StatusExcludesIff | src/agents/validation.py:164-167 | the status test excludes exactly the three leave statuses |
| Validation.Motivos | src/agents/validation.py:138-172 | a row has reasons iff it is excluded |
| Validation.CheckFlags | src/agents/validation.py:141-155 | the flag reasons in order, with one counter bumped per set flag |
| Validation.CheckTexts | src/agents/validation.py:158-169 | the position and status reasons, with their counters |
| Validation.CheckRow | src/agents/validation.py:136-169 | one row's reasons and the counters bumped by its causes |
| Validation.ApplyIndividualExclusionRules | src/agents/validation.py:118-194 | the loop keeps exactly the eligible rows, counts the excluded ones and tallies each cause |
| Validation.EligibleRowsMeaning | src/agents/validation.py:172-180 | the kept rows are those not excluded, in order, and their number is the total minus the excluded count |
| Validation.CountNotExcluded | src/agents/validation.py:177-180 | the eligible count plus the excluded count is the row count |
| Validation.TalliesBound | src/agents/validation.py:126-169 | each cause's tally is at most the excluded count, which is at most the sum of tallies |
| Validation.ExclusionAgreesWithRules | src/agents/validation.py:158-169 | where the status lists do not interfere, validation excludes exactly the rows the rules helper excludes |
| Validation.ApplyDismissalRules | src/agents/validation.py:196-234 | with both columns, the loop keeps dismissals after day 15 as `PROPORCIONAL` and others as `INTEGRAL`, and fails on an empty table; without them every row is `INTEGRAL` |
| Validation.AssessmentsMeaning | src/agents/validation.py:204-232 | kept rows are the input rows the dismissal rule keeps, and no kept row was dismissed up to day 15 |
| Validation.DismissalAgreesWithRules | src/agents/validation.py:209-217 | the pass drops a dismissed row iff the rules helper excludes it, and otherwise tags it as the helper does |
| Validation.VacationOutcome | src/agents/validation.py:246-255 | on vacation iff the vacation days are positive; the day count is their truncation; `INTEGRAL` becomes `FERIAS` |
| Validation.ProcessVacationRules | src/agents/validation.py:236-259 | the loop applies the vacation outcome to every row, in order |
| Validation.TypeCounts | src/agents/validation.py:267 | each regime present, with its count |
| Validation.Tags | src/agents/validation.py:267 | every row has a regime tag; none is null |
| Validation.Companies | src/agents/validation.py:275-276 | a company appears in the column iff some row names it |
| Validation.Unions | src/agents/validation.py:281-282 | a union appears in the column iff some row names it |
| Validation.CalculateValidationStats | src/agents/validation.py:261-284 | eligible count, vacation count, regime counts; with those columns, the companies and unions present, each with its number of rows (nulls not counted) |
| Validation.RunPasses | src/agents/validation.py:50-56 | the three passes: the first's counts, then the second's failure or the validated rows |
| Validation.StoreStats | src/agents/validation.py:270-283 | stores the statistics; an absent company or union column leaves that distribution as it was; every other key, including `calculated`, `total_employees` and the calculation statistics, is unchanged |
| Validation.StoreValidated | src/agents/validation.py:59-64 | stores the validated table and statistics and marks the stage complete; the files, the month, the consolidation keys, the exclusion counts, `calculated` and the calculation statistics are unchanged |
| Validation.ValidateTable | src/agents/validation.py:47-74 | the stage body after its guards: counts stored, then either the second pass's error with the distributions unchanged, or the validated table with all its statistics; the consolidation and calculation keys are never touched |
| Validation.Execute | src/agents/validation.py:29-76 | no table, an empty one or a missing identifier column record the matching error; otherwise exclusions are counted, then the second pass's error or the validated table, its statistics and the stage `validation_complete` are stored; a guard failure leaves the exclusion counts and distributions as they were, and no branch touches the files, the month, the consolidation keys or the calculation keys |
| Calculation.HalfMonth | src/agents/calculation.py:168 | `max(1, int(base * 0.5))`: floor of half the base, never below 1 |
| Calculation.HalfIsFloor | src/agents/calculation.py:168 | truncating half a non-negative base is integer halving |
| Calculation.PaidDays | src/agents/calculation.py:129-172 | `INTEGRAL` and unknown tags pay the base; `FERIAS` pays the rules' vacation adjustment; `PROPORCIONAL` pays the base unless its day is at most 15, then half |
| Calculation.PaidDaysWithinBase | src/agents/calculation.py:141-154 | outside `PROPORCIONAL`, the paid days lie between 0 and the base |
| Calculation.DailyValue | src/agents/calculation.py:174-199 | a text rate fails with the comparison error; a positive rate is used; otherwise 37.5 for `SINDPD SP` and 35.0 else; every rate is positive |
| Calculation.FixedRatesAbove | src/agents/calculation.py:186-196 | among the fixed rates only `SINDPD SP` differs from 35.0 |
| Calculation.Observations | src/agents/calculation.py:201-220 | the note always carries the days-and-rate text, so it is never `CÁLCULO NORMAL`; vacation and dismissal notes come first |
| Calculation.CalcTextMarker | src/agents/calculation.py:218 | the days-and-rate text contains ` dias × R$ ` |
| Calculation.NormalNoteHasNoCalcText | src/agents/calculation.py:218-220 | `CÁLCULO NORMAL` contains no days-and-rate text |
| Calculation.SplitAmounts | src/agents/calculation.py:105-116 | the rounded total and shares agree to a cent |
| Calculation.CalculateRow | src/agents/calculation.py:94-124 | every calculated row, failed or not, passes the split check |
| Calculation.FailedRowKeepsZeros | src/agents/calculation.py:122-124 | a failed row keeps zero days and amounts and gets the error note |
| Calculation.BenefitValuesAgree | src/agents/calculation.py:105-116 | the stage's amounts are the rules helper's benefit values rounded to the cent |
| Calculation.PaidRowMatchesRules | src/agents/calculation.py:99-117 | a row with a rate is paid its days at that rate, as the rules helper computes, and its note shows them |
| Calculation.WriteRow | src/agents/calculation.py:97-124 | one loop step writes row i's five result cells and nothing else |
| Calculation.CalculateIndividualBenefits | src/agents/calculation.py:82-127 | without the identifier column the stage fails; otherwise the loop yields the calculated row for every row, in order |
| Calculation.ValidateCalculationResults | src/agents/calculation.py:222-245 | counts the zero-total rows and the rows whose split is off by more than a cent |
| Calculation.NoneInconsistent | src/agents/calculation.py:232-240 | rows that pass the split check give a zero inconsistency count |
| Calculation.CalculatedRowsConsistent | src/agents/calculation.py:232-240 | the check never fires on rows the stage produced |
| Calculation.UnionNames | src/agents/calculation.py:276 | exactly the non-null unions of the rows |
| Calculation.UniqueUnionsMeaning | src/agents/calculation.py:276-277 | `unique()` lists each present union once |
| Calculation.LastWithKey | src/agents/calculation.py:276-279 | the last union cut to a key: none exactly when no union has that key, otherwise no later union has it |
| Calculation.UnionStats | src/agents/calculation.py:274-282 | a 50-character key is present iff some union is cut to it, and it holds the row count of the last such union |
| Calculation.TypeStatsMeaning | src/agents/calculation.py:285-287 | the regime counts list exactly the regimes present |
| Calculation.CalculateFinalStatistics | src/agents/calculation.py:263-299 | the employee count, the union counts (with the `Sindicato` column) and the regime counts (with `TIPO_CALCULO`) |
| Calculation.StoreCalcStats | src/agents/calculation.py:290-299 | stores the three counts; every other key, the outcome fields included, is unchanged |
| Calculation.StoreCalculated | src/agents/calculation.py:51-67 | stores the table and counts, then records the undefined-name error; the files, the month, `total_employees` and the validation keys are unchanged |
| Calculation.CalculateTable | src/agents/calculation.py:45-67 | the missing-identifier error with the table and counts unchanged, or the calculated table and counts stored followed by the undefined-name error; the files, the month and the consolidation and validation keys are never touched |
| Calculation.Execute | src/agents/calculation.py:27-69 | no table, an empty one or a missing identifier column record the matching error; otherwise the calculated table and its employee, union and regime counts are stored; the stage always ends failed; a failure before the store leaves the table and counts as they were, and no branch touches the files, the month or the consolidation and validation keys |
| Calculation.ProportionalRowsPaidInFull | src/agents/calculation.py:156-170 | every `PROPORCIONAL` row validation hands over is paid the full base |

## Left out

- **File input and output.**
  - Reading and normalising the Excel files is not part of this model (`src/agents/data_ingestion.py`, `src/utils/excel_handler.py`).
  - Neither is writing the report (`src/agents/report_generation.py`).
  - Tables arrive as already typed rows, with dates already parsed (the `Date` triple and the `ValidDate` subset type).
- **Runtime plumbing.** The command-line driver (`run.py`), the LangGraph wiring (`src/graph/workflow.py`, `src/graph/nodes.py`) and all logging are not modelled.
- **Float sums and averages.**
  - The sums, averages and per-union `total_value` of `_calculate_final_statistics` are not modelled. Only its counts are.
  - Money is exact: `round(x, 2)` is round-half-even on the exact value. Python rounds the binary float, which cannot be reproduced exactly.
- **Regular expressions.** The pattern matching of `str.contains` (rules.py:118, 195) is modelled as a plain substring test.
- **Unused rules.**
  - `calculate_workdays` picks a pandas `mode()`; it is not modelled.
  - `_calculate_monthly_workdays` is never called by the stage, so it is not modelled either.
- **Dict fallback.** The `_extract_dataframe_from_state` helpers also accept a dict holding a table. The model keeps only the table case.
- **Integrity checks.**
  - Validation's `_validate_data_integrity` only logs, except for the missing-identifier error, which is modelled.
  - The validator calls it makes are modelled on their own in `Validators`.
- **Dropped columns.** `MOTIVO_EXCLUSAO`, `ELEGIVEL` and `MOTIVO_EXCLUSAO_VR` are dropped or belong to dropped rows. Only the reasons (`Validation.Motivos`) and the kept rows are modelled. `DATA_LIMITE_CALCULO` is carried as the limit inside the `PROPORCIONAL` regime.
- **Identifier types.** Roster identifiers are integers. A null identifier in the roster is not modelled. Nulls in the auxiliary tables are.
- Rules.GetCutoffDate: a string that does not parse gives `None`; the source's fallback to `date.today()` reads the clock and is not modelled.
- Text.IsDigits, Text.ParseInt, Text.ParseDecimal: digits are ASCII `0`-`9` only. Python's `str.isdigit()`, `int()` and `float()` also accept other Unicode digits; `int()` and `float()` also accept `_` separators, and `float()` accepts exponents, `nan` and `inf`. Those spellings are not modelled. This affects Validators.ValidateMatricula, Rules.GetCutoffDate, Rules.CellToFloat and Rules.GetDailyValueByUnion.
- Text.Upper: only ASCII and Latin-1 letters are upper-cased. Other scripts, and Python's length-changing mappings such as `'ß'.upper() == 'SS'`, are not modelled; `ÿ` and `µ`, whose upper-case forms lie outside Latin-1, are left unchanged.
- Validators.ValidateMatricula: each element is given by its `str()` text. How Python renders a number as text is not modelled.
- Validators.ValidateDates: `%d` in `strptime` also accepts a space-padded single digit; the model accepts one or two digits only. The null spellings and the nanosecond `Timestamp` range follow pandas 2; other pandas versions may differ.
- Validators.ValidateNumericValues: the text of a number inside a message is produced by a `show` parameter, which stands for Python's float formatting. `float()` of text accepts only plain decimal notation (no exponent, `nan` or `inf`).
- Validators.ValidateDataConsistency: findings are structured values, not the message text. The text prints a Python `set`, whose order is not defined.
