/**
 * Column-level data checks. Each check walks a column and collects one
 * message per problem, in row order; a check passes exactly when it collects
 * nothing. The checks on identifiers, dates and numbers are loops that append
 * to a local list; the required-column check and the consistency check are
 * single expressions.
 */
module Validators {
  import opened Wrappers
  import opened Text
  import opened Dates
  import opened Tables
  import opened Seqs
  import Rules

  // ---------------------------------------------------------------------------
  // Collecting messages row by row
  // ---------------------------------------------------------------------------

  /**
   * The messages a per-row check produces over a column: `check(n, x)` is what
   * row `x` at 1-based line `n` contributes, appended in row order.
   */
  function Collect<T>(s: seq<T>, check: (nat, T) -> seq<string>): seq<string> {
    if s == [] then [] else Collect(s[..|s| - 1], check) + check(|s|, s[|s| - 1])
  }

  /** A column yields no message exactly when no row does. */
  lemma {:induction false} CollectEmptyIff<T>(s: seq<T>, check: (nat, T) -> seq<string>)
    ensures Collect(s, check) == [] <==> forall i :: 0 <= i < |s| ==> check(i + 1, s[i]) == []
  {
    if s != [] {
      var init := s[..|s| - 1];
      CollectEmptyIff(init, check);
      assert forall i :: 0 <= i < |init| ==> init[i] == s[i];
    }
  }

  /** When every row contributes at most one message, there is one message per failing row. */
  lemma {:induction false} CollectOnePerRow<T>(s: seq<T>, check: (nat, T) -> seq<string>, fails: T -> bool)
    requires forall n: nat, x: T :: |check(n, x)| == (if fails(x) then 1 else 0)
    ensures |Collect(s, check)| == CountWhere(s, fails)
  {
    if s != [] {
      CollectOnePerRow(s[..|s| - 1], check, fails);
    }
  }

  /** The prefix of the next row extends the collected messages by that row's own. */
  lemma CollectStep<T>(s: seq<T>, i: nat, check: (nat, T) -> seq<string>)
    requires i < |s|
    ensures Collect(s[..i + 1], check) == Collect(s[..i], check) + check(i + 1, s[i])
  {
    assert s[..i + 1][..i] == s[..i];
  }

  /** `f"Linha {n}: "`, the head of every per-line message. */
  function LinePrefix(n: nat): string {
    "Linha " + NatToString(n) + ": "
  }

  // ---------------------------------------------------------------------------
  // validate_required_columns
  // ---------------------------------------------------------------------------

  function Absent(columns: set<string>): string -> bool {
    c => c !in columns
  }

  /** The required columns missing from the frame, in the order they are listed. */
  function ValidateRequiredColumns(columns: set<string>, required: seq<string>): (r: (bool, seq<string>))
    ensures IsSubsequence(r.1, required)
    ensures forall c :: c in r.1 <==> c in required && c !in columns
    ensures r.0 <==> r.1 == []
    ensures r.0 <==> forall c :: c in required ==> c in columns
  {
    var missing := Filter(required, Absent(columns));
    FilterSubsequence(required, Absent(columns));
    AbsentKept(columns, required);
    assert missing != [] ==> missing[0] in missing;
    (missing == [], missing)
  }

  lemma AbsentKept(columns: set<string>, required: seq<string>)
    ensures forall c :: c in Filter(required, Absent(columns)) <==> c in required && c !in columns
  {
    forall c | c in required && c !in columns
      ensures c in Filter(required, Absent(columns))
    {
      FilterKeeps(required, Absent(columns), c);
    }
  }

  // ---------------------------------------------------------------------------
  // validate_matricula
  // ---------------------------------------------------------------------------

  const EmptyMatricula := "Matricula vazia"

  /** An identifier is well formed when its stripped text is at least four digits. */
  predicate WellFormedMatricula(s: string) {
    IsDigits(Strip(s)) && |Strip(s)| >= 4
  }

  /** A null, or a value whose stripped text is not a well-formed identifier. */
  predicate BadMatricula(m: Option<string>) {
    m.None? || !WellFormedMatricula(m.value)
  }

  /**
   * What one element contributes: `"Matricula vazia"` for a null, the stripped
   * text for a malformed value, nothing otherwise. A value is given by its
   * `str()` text.
   */
  function MatriculaCheck(line: nat, m: Option<string>): (r: seq<string>)
    ensures |r| == (if BadMatricula(m) then 1 else 0)
  {
    match m
    case None => [EmptyMatricula]
    case Some(s) => if WellFormedMatricula(s) then [] else [Strip(s)]
  }

  /** The message an element that fails contributes. */
  function MatriculaMessage(m: Option<string>): string {
    if m.None? then EmptyMatricula else Strip(m.value)
  }

  /**
   * The invalid identifiers of a column, in order, with validity meaning the
   * list is empty.
   */
  method ValidateMatricula(series: seq<Option<string>>) returns (valid: bool, invalid: seq<string>)
    ensures invalid == Collect(series, MatriculaCheck)
    ensures valid <==> forall i :: 0 <= i < |series| ==> !BadMatricula(series[i])
    ensures |invalid| == CountWhere(series, BadMatricula)
  {
    invalid := [];
    var i := 0;
    while i < |series|
      invariant i <= |series|
      invariant invalid == Collect(series[..i], MatriculaCheck)
    {
      CollectStep(series, i, MatriculaCheck);
      var matricula := series[i];
      if matricula.None? {
        invalid := invalid + [EmptyMatricula];
      } else {
        var text := Strip(matricula.value);
        if !IsDigits(text) || |text| < 4 {
          invalid := invalid + [text];
        }
      }
      i := i + 1;
    }
    assert series[..|series|] == series;
    valid := |invalid| == 0;
    CollectEmptyIff(series, MatriculaCheck);
    CollectOnePerRow(series, MatriculaCheck, BadMatricula);
  }

  /** The invalid list is the message of each failing element, in input order. */
  lemma {:induction false} InvalidMatriculasInOrder(series: seq<Option<string>>)
    ensures Collect(series, MatriculaCheck) == MessagesOf(Filter(series, BadMatricula))
  {
    if series != [] {
      var init, last := series[..|series| - 1], series[|series| - 1];
      InvalidMatriculasInOrder(init);
      var kept := Filter(init, BadMatricula);
      if BadMatricula(last) {
        assert MessagesOf(kept + [last]) == MessagesOf(kept) + [MatriculaMessage(last)];
      } else {
        assert Filter(series, BadMatricula) == kept;
      }
    }
  }

  function MessagesOf(s: seq<Option<string>>): (r: seq<string>)
    ensures |r| == |s|
  {
    seq(|s|, i requires 0 <= i < |s| => MatriculaMessage(s[i]))
  }

  // ---------------------------------------------------------------------------
  // validate_dates
  // ---------------------------------------------------------------------------

  /**
   * A cell of a date column: null (including `NaT`), text, a parsed
   * timestamp, or any other value, given by its `str()` text.
   */
  datatype DateValue = NullDate | DateText(s: string) | Stamp(d: ValidDate) | OtherDate(repr: string)

  /** The texts `pd.to_datetime` reads as `NaT` without raising. */
  const NaTTexts: set<string> := {"", "NaT", "nat", "NAT", "nan", "NaN", "NAN"}

  /**
   * The dates a nanosecond `Timestamp` holds, at day granularity: from
   * 1677-09-22 (the range starts at 00:12 on the 21st) to 2262-04-11.
   */
  predicate InTimestampRange(d: Date) {
    NotAfter(Date(1677, 9, 22), d) && NotAfter(d, Date(2262, 4, 11))
  }

  /**
   * `pd.to_datetime(s, format='%d/%m/%Y')` raises: the text is not one of
   * the null spellings and either does not parse or names a date outside
   * the `Timestamp` range (`OutOfBoundsDatetime`).
   */
  predicate TextRejected(s: string) {
    s !in NaTTexts && (ParseDayMonthYear(s).None? || !InTimestampRange(ParseDayMonthYear(s).value))
  }

  /** Text that `pd.to_datetime` rejects, or a value that is neither text nor a timestamp. */
  predicate BadDate(v: DateValue) {
    match v
    case NullDate => false
    case DateText(s) => TextRejected(s)
    case Stamp(_) => false
    case OtherDate(_) => true
  }

  function DateCheck(line: nat, v: DateValue): (r: seq<string>)
    ensures |r| == (if BadDate(v) then 1 else 0)
    ensures r != [] ==> StartsWith(r[0], LinePrefix(line))
  {
    match v
    case NullDate => []
    case DateText(s) => if TextRejected(s) then [LinePrefix(line) + s] else []
    case Stamp(_) => []
    case OtherDate(repr) => [LinePrefix(line) + repr]
  }

  /** The malformed dates of a column, each tagged with its 1-based line. */
  method ValidateDates(series: seq<DateValue>) returns (valid: bool, invalid: seq<string>)
    ensures invalid == Collect(series, DateCheck)
    ensures valid <==> forall i :: 0 <= i < |series| ==> !BadDate(series[i])
    ensures |invalid| == CountWhere(series, BadDate)
  {
    invalid := [];
    var i := 0;
    while i < |series|
      invariant i <= |series|
      invariant invalid == Collect(series[..i], DateCheck)
    {
      CollectStep(series, i, DateCheck);
      match series[i] {
        case NullDate =>
        case DateText(s) =>
          if TextRejected(s) {
            invalid := invalid + [LinePrefix(i + 1) + s];
          }
        case Stamp(_) =>
        case OtherDate(repr) =>
          invalid := invalid + [LinePrefix(i + 1) + repr];
      }
      i := i + 1;
    }
    assert series[..|series|] == series;
    valid := |invalid| == 0;
    CollectEmptyIff(series, DateCheck);
    CollectOnePerRow(series, DateCheck, BadDate);
  }

  /** Formatted dates have at least ten characters, so none is a null spelling. */
  lemma FormatNotNaT(d: Date)
    requires Valid(d) && d.year >= 1000
    ensures |Format(d)| >= 10 && Format(d) !in NaTTexts
  {
    NatToStringLength(d.day);
    NatToStringLength(d.month);
    NatToStringLength(d.year);
  }

  /** A column of dates written as `dd/mm/yyyy` inside the `Timestamp` range passes. */
  lemma {:induction false} FormattedDatesPass(dates: seq<ValidDate>, series: seq<DateValue>)
    requires |series| == |dates|
    requires forall i :: 0 <= i < |dates| ==> InTimestampRange(dates[i]) && series[i] == DateText(Format(dates[i]))
    ensures Collect(series, DateCheck) == []
  {
    forall i | 0 <= i < |series|
      ensures DateCheck(i + 1, series[i]) == []
    {
      ParseFormatRoundTrip(dates[i]);
    }
    CollectEmptyIff(series, DateCheck);
  }

  /** A well-formed date outside the `Timestamp` range is reported with its line. */
  lemma OutOfRangeDateReported(line: nat, d: ValidDate)
    requires d.year >= 1000 && !InTimestampRange(d)
    ensures DateCheck(line, DateText(Format(d))) == [LinePrefix(line) + Format(d)]
  {
    ParseFormatRoundTrip(d);
    FormatNotNaT(d);
  }

  // ---------------------------------------------------------------------------
  // validate_numeric_values
  // ---------------------------------------------------------------------------

  /**
   * `f"{value}"`: text as itself, a number through `show`, which stands for
   * Python's rendering of a float.
   */
  function ShowCell(c: Cell, show: real -> string): string {
    match c
    case Num(x) => show(x)
    case Text(s) => s
  }

  /** A present value that `float()` rejects. */
  predicate NotNumeric(v: Option<Cell>) {
    v.Some? && Rules.CellToFloat(v.value).Err?
  }

  predicate BelowMin(v: Option<Cell>, min: Option<real>) {
    v.Some? && Rules.CellToFloat(v.value).Ok? && min.Some? && Rules.CellToFloat(v.value).value < min.value
  }

  predicate AboveMax(v: Option<Cell>, max: Option<real>) {
    v.Some? && Rules.CellToFloat(v.value).Ok? && max.Some? && Rules.CellToFloat(v.value).value > max.value
  }

  /**
   * What one value contributes: nothing for a null; one message when it is
   * not a number; otherwise one message for each bound it breaks.
   */
  function NumericIssues(line: nat, v: Option<Cell>, min: Option<real>, max: Option<real>, show: real -> string): (r: seq<string>)
    ensures |r| == (if NotNumeric(v) then 1 else 0) + (if BelowMin(v, min) then 1 else 0) + (if AboveMax(v, max) then 1 else 0)
    ensures forall k :: 0 <= k < |r| ==> StartsWith(r[k], LinePrefix(line))
  {
    match v
    case None => []
    case Some(c) =>
      var head := LinePrefix(line) + ShowCell(c, show);
      match Rules.CellToFloat(c)
      case Err(_) => [head + " nao e numerico"]
      case Ok(x) =>
        (if min.Some? && x < min.value then [head + " < " + show(min.value)] else [])
        + (if max.Some? && x > max.value then [head + " > " + show(max.value)] else [])
  }

  function NumericCheck(min: Option<real>, max: Option<real>, show: real -> string): (nat, Option<Cell>) -> seq<string> {
    (line: nat, v: Option<Cell>) => NumericIssues(line, v, min, max, show)
  }

  /** A value that is null, or a number within every bound that is given. */
  predicate Acceptable(v: Option<Cell>, min: Option<real>, max: Option<real>) {
    !NotNumeric(v) && !BelowMin(v, min) && !AboveMax(v, max)
  }

  /** The out-of-range and non-numeric values of a column, each tagged with its line. */
  method ValidateNumericValues(series: seq<Option<Cell>>, min: Option<real>, max: Option<real>, show: real -> string)
    returns (valid: bool, invalid: seq<string>)
    ensures invalid == Collect(series, NumericCheck(min, max, show))
    ensures valid <==> forall i :: 0 <= i < |series| ==> Acceptable(series[i], min, max)
  {
    invalid := [];
    var i := 0;
    while i < |series|
      invariant i <= |series|
      invariant invalid == Collect(series[..i], NumericCheck(min, max, show))
    {
      CollectStep(series, i, NumericCheck(min, max, show));
      assert NumericCheck(min, max, show)(i + 1, series[i]) == NumericIssues(i + 1, series[i], min, max, show);
      invalid := AppendNumericIssues(invalid, i + 1, series[i], min, max, show);
      i := i + 1;
    }
    assert series[..|series|] == series;
    valid := |invalid| == 0;
    NumericReportEmptyIff(series, min, max, show);
  }

  /** A column yields no numeric message exactly when every value is acceptable. */
  lemma NumericReportEmptyIff(series: seq<Option<Cell>>, min: Option<real>, max: Option<real>, show: real -> string)
    ensures Collect(series, NumericCheck(min, max, show)) == [] <==> forall i :: 0 <= i < |series| ==> Acceptable(series[i], min, max)
  {
    var check := NumericCheck(min, max, show);
    CollectEmptyIff(series, check);
    forall i | 0 <= i < |series|
      ensures check(i + 1, series[i]) == [] <==> Acceptable(series[i], min, max)
    {
      assert check(i + 1, series[i]) == NumericIssues(i + 1, series[i], min, max, show);
      NumericIssuesEmptyIff(i + 1, series[i], min, max, show);
    }
  }

  lemma NumericIssuesEmptyIff(line: nat, v: Option<Cell>, min: Option<real>, max: Option<real>, show: real -> string)
    ensures NumericIssues(line, v, min, max, show) == [] <==> Acceptable(v, min, max)
  {
    var r := NumericIssues(line, v, min, max, show);
    assert r == [] <==> |r| == 0;
  }

  /** One iteration of the loop: the messages for the value at `line`, appended. */
  method AppendNumericIssues(invalid: seq<string>, line: nat, value: Option<Cell>, min: Option<real>, max: Option<real>, show: real -> string)
    returns (out: seq<string>)
    ensures out == invalid + NumericIssues(line, value, min, max, show)
  {
    out := invalid;
    if value.Some? {
      var head := LinePrefix(line) + ShowCell(value.value, show);
      var parsed := Rules.CellToFloat(value.value);
      if parsed.Ok? {
        var x := parsed.value;
        if min.Some? && x < min.value {
          out := out + [head + " < " + show(min.value)];
        }
        if max.Some? && x > max.value {
          out := out + [head + " > " + show(max.value)];
        }
      } else {
        out := out + [head + " nao e numerico"];
      }
    }
  }

  /** With no bounds, only values `float()` rejects are reported, one message each. */
  lemma {:induction false} UnboundedReportsNonNumeric(series: seq<Option<Cell>>, show: real -> string)
    ensures |Collect(series, NumericCheck(None, None, show))| == CountWhere(series, NotNumeric)
  {
    CollectOnePerRow(series, NumericCheck(None, None, show), NotNumeric);
  }

  /** A value below a minimum that exceeds the maximum breaks both bounds: two messages. */
  lemma CrossedBoundsReportTwice(line: nat, x: real, min: real, max: real, show: real -> string)
    requires max < x < min
    ensures |NumericIssues(line, Some(Num(x)), Some(min), Some(max), show)| == 2
  {
  }

  // ---------------------------------------------------------------------------
  // validate_data_consistency
  // ---------------------------------------------------------------------------

  const MatriculaColumn := "MATRICULA"

  /** A frame: its columns and, per row, the cells that are not null. */
  datatype Frame = Frame(columns: set<string>, rows: seq<map<string, Cell>>)

  /** The identifier of a row; `None` stands for a null, and nulls compare equal. */
  function KeyOf(row: map<string, Cell>): Option<Cell> {
    if MatriculaColumn in row then Some(row[MatriculaColumn]) else None
  }

  function Keys(rows: seq<map<string, Cell>>): (r: seq<Option<Cell>>)
    ensures |r| == |rows|
    ensures forall i :: 0 <= i < |rows| ==> r[i] == KeyOf(rows[i])
  {
    seq(|rows|, i requires 0 <= i < |rows| => KeyOf(rows[i]))
  }

  /** `duplicated(keep=False)`: the identifiers carried by more than one row. */
  function DuplicateIds(rows: seq<map<string, Cell>>): set<Option<Cell>> {
    var keys := Keys(rows);
    set i | 0 <= i < |keys| && Occurrences(keys, keys[i]) >= 2 :: keys[i]
  }

  /** A row with every column null. */
  predicate EmptyRow(columns: set<string>, row: map<string, Cell>) {
    forall c :: c in columns ==> c !in row
  }

  function EmptyRowCount(columns: set<string>, rows: seq<map<string, Cell>>): (n: nat)
    ensures n <= |rows|
  {
    if rows == [] then 0
    else EmptyRowCount(columns, rows[..|rows| - 1]) + (if EmptyRow(columns, rows[|rows| - 1]) then 1 else 0)
  }

  /** The two findings of the consistency check. */
  datatype ConsistencyError = DuplicateMatriculas(ids: set<Option<Cell>>) | EmptyRows(count: nat)

  /** Two distinct rows share an identifier. */
  predicate SharedId(rows: seq<map<string, Cell>>) {
    exists i, j :: 0 <= i < j < |rows| && KeyOf(rows[i]) == KeyOf(rows[j])
  }

  /**
   * Duplicated identifiers (only when the frame has the identifier column)
   * and fully empty rows, in that order; valid when neither is found.
   */
  function ValidateDataConsistency(f: Frame): (r: (bool, seq<ConsistencyError>))
    ensures r.0 <==> r.1 == []
    ensures r.0 <==> (MatriculaColumn !in f.columns || !SharedId(f.rows))
                     && forall i :: 0 <= i < |f.rows| ==> !EmptyRow(f.columns, f.rows[i])
    ensures forall e :: e in r.1 && e.DuplicateMatriculas? ==> e.ids == DuplicateIds(f.rows)
    ensures forall e :: e in r.1 && e.EmptyRows? ==> e.count == EmptyRowCount(f.columns, f.rows)
  {
    var dups := DuplicateIds(f.rows);
    var empty := EmptyRowCount(f.columns, f.rows);
    DuplicatesIffShared(f.rows);
    EmptyRowCountZeroIff(f.columns, f.rows);
    var errors := (if MatriculaColumn in f.columns && dups != {} then [DuplicateMatriculas(dups)] else [])
      + (if empty > 0 then [EmptyRows(empty)] else []);
    (errors == [], errors)
  }

  /** Some identifier is duplicated exactly when two distinct rows share one. */
  lemma DuplicatesIffShared(rows: seq<map<string, Cell>>)
    ensures DuplicateIds(rows) != {} <==> SharedId(rows)
  {
    var keys := Keys(rows);
    if SharedId(rows) {
      var i, j :| 0 <= i < j < |rows| && KeyOf(rows[i]) == KeyOf(rows[j]);
      TwoPositionsOccurTwice(keys, i, j);
      assert keys[i] in DuplicateIds(rows);
    }
    if DuplicateIds(rows) != {} {
      var k :| k in DuplicateIds(rows);
      var i :| 0 <= i < |keys| && Occurrences(keys, keys[i]) >= 2 && keys[i] == k;
      var a, b := OccursTwiceTwoPositions(keys, k);
      assert KeyOf(rows[a]) == KeyOf(rows[b]);
    }
  }

  lemma {:induction false} TwoPositionsOccurTwice<T>(s: seq<T>, i: int, j: int)
    requires 0 <= i < j < |s| && s[i] == s[j]
    ensures Occurrences(s, s[i]) >= 2
  {
    var init := s[..|s| - 1];
    if j < |s| - 1 {
      TwoPositionsOccurTwice(init, i, j);
    } else {
      assert init[i] == s[i];
      assert s[i] in init;
    }
  }

  lemma {:induction false} OccursTwiceTwoPositions<T>(s: seq<T>, x: T) returns (i: int, j: int)
    requires Occurrences(s, x) >= 2
    ensures 0 <= i < j < |s| && s[i] == x && s[j] == x
  {
    var init := s[..|s| - 1];
    if s[|s| - 1] == x {
      assert x in init;
      i :| 0 <= i < |init| && init[i] == x;
      j := |s| - 1;
    } else {
      i, j := OccursTwiceTwoPositions(init, x);
    }
  }

  /** No fully empty row is counted exactly when there is none. */
  lemma {:induction false} EmptyRowCountZeroIff(columns: set<string>, rows: seq<map<string, Cell>>)
    ensures EmptyRowCount(columns, rows) == 0 <==> forall i :: 0 <= i < |rows| ==> !EmptyRow(columns, rows[i])
  {
    if rows != [] {
      var init := rows[..|rows| - 1];
      EmptyRowCountZeroIff(columns, init);
      assert forall i :: 0 <= i < |init| ==> init[i] == rows[i];
    }
  }
}
