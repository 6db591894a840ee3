/**
 * The calculation stage: for every validated row, the days to pay, the
 * daily rate, the total with its 80% employer / 20% employee split and an
 * audit note; then the consistency check of the split, the per-union and
 * per-regime counts, and the update of the state (which ends with the
 * stage's own `NameError`).
 */
module Calculation {
  import opened Wrappers
  import opened Text
  import opened Dates
  import opened Tables
  import opened Seqs
  import opened PipelineState
  import opened Money
  import Rules
  import Validation

  // ---------------------------------------------------------------------------
  // _calculate_individual_workdays
  // ---------------------------------------------------------------------------

  /** The base when `DIAS_UTEIS_SINDICATO` is missing or null. */
  const DefaultBaseDays := 22

  /** Limit days up to this one pay half a month. */
  const HalfMonthDay := 15

  /** `employee.get('TIPO_CALCULO', 'INTEGRAL')`. */
  function RegimeOf(columns: set<string>, v: Validated): Regime {
    if RegimeColumn in columns then v.regime else Integral
  }

  /** `employee.get('DIAS_FERIAS', 0)`. */
  function VacationDaysOf(columns: set<string>, v: Validated): int {
    if Validation.VacationCountColumn in columns then v.vacationDays else 0
  }

  /** `dias_base`: `int(DIAS_UTEIS_SINDICATO)`, or 22 when the column or the value is missing. */
  function BaseDays(columns: set<string>, v: Validated): int {
    if UnionWorkdaysColumn in columns && v.emp.unionWorkdays.Some? then Trunc(v.emp.unionWorkdays.value)
    else DefaultBaseDays
  }

  /** `max(1, int(dias_base * 0.5))`: on a non-negative base, half of it rounded down, and never less than one day. */
  function HalfMonth(base: int): (r: int)
    ensures r >= 1
    ensures base >= 2 ==> 2 * r <= base <= 2 * r + 1
    ensures base < 2 ==> r == 1
  {
    var half := Trunc(base as real * 0.5);
    HalfIsFloor(base);
    if 1 > half then 1 else half
  }

  lemma HalfIsFloor(base: int)
    ensures base >= 0 ==> Trunc(base as real * 0.5) == base / 2
  {
    if base >= 0 {
      var q := base / 2;
      assert base == 2 * q || base == 2 * q + 1;
      assert q as real <= base as real * 0.5 < q as real + 1.0;
    }
  }

  /**
   * `_calculate_individual_workdays`: the base for `INTEGRAL` and any
   * unrecognised regime; the base less the vacation days, never below
   * zero, for `FERIAS`; for `PROPORCIONAL`, half the base when the limit
   * date falls on day 15 or earlier, else the base.
   */
  function PaidDays(columns: set<string>, v: Validated): (r: int)
    ensures RegimeOf(columns, v).Integral? || RegimeOf(columns, v).Other? ==> r == BaseDays(columns, v)
    ensures RegimeOf(columns, v).Ferias? ==>
      r == Rules.CalculateVacationAdjustment(BaseDays(columns, v), VacationDaysOf(columns, v))
    ensures RegimeOf(columns, v).Proporcional? ==>
      var limit := RegimeOf(columns, v).limit;
      && (limit.None? || limit.value.day > HalfMonthDay ==> r == BaseDays(columns, v))
      && (limit.Some? && limit.value.day <= HalfMonthDay ==>
            && (BaseDays(columns, v) >= 2 ==> r == BaseDays(columns, v) / 2)
            && (BaseDays(columns, v) < 2 ==> r == 1))
  {
    var base := BaseDays(columns, v);
    match RegimeOf(columns, v)
    case Integral => base
    case Ferias =>
      var adjusted := base - VacationDaysOf(columns, v);
      if adjusted > 0 then adjusted else 0
    case Proporcional(limit) =>
      if limit.None? then base
      else if limit.value.day <= HalfMonthDay then HalfMonth(base)
      else base
    case Other(_) => base
  }

  /** Paid days never exceed the base for `INTEGRAL` and `FERIAS` on a non-negative base and vacation. */
  lemma PaidDaysWithinBase(columns: set<string>, v: Validated)
    requires BaseDays(columns, v) >= 0 && VacationDaysOf(columns, v) >= 0
    requires !RegimeOf(columns, v).Proporcional?
    ensures 0 <= PaidDays(columns, v) <= BaseDays(columns, v)
  {
  }

  // ---------------------------------------------------------------------------
  // _get_daily_value_for_employee
  // ---------------------------------------------------------------------------

  /** The rate when nothing matches. */
  const FallbackRate: real := 35.0

  /** Comparing a text `VALOR_DIA` with `0` raises `TypeError`. */
  const CompareError := "'>' not supported between instances of 'str' and 'int'"

  /** `str(employee.get('Sindicato', ''))`. */
  function UnionName(columns: set<string>, v: Validated): string {
    ColumnText(columns, UnionColumn, v.emp.union)
  }

  /** A numeric `VALOR_DIA` above zero. */
  predicate PositiveCell(columns: set<string>, v: Validated) {
    DailyValueColumn in columns && v.emp.dailyValue.Some? && v.emp.dailyValue.value.Num? && v.emp.dailyValue.value.x > 0.0
  }

  /**
   * `_get_daily_value_for_employee`: a positive `VALOR_DIA`; else the value
   * of the first fixed-map key contained in the raw union name; else 35.0.
   * A text `VALOR_DIA` cannot be compared with zero.
   */
  function DailyValue(columns: set<string>, v: Validated): (r: Result<real>)
    ensures r.Err? <==> DailyValueColumn in columns && v.emp.dailyValue.Some? && v.emp.dailyValue.value.Text?
    ensures r.Err? ==> r.msg == CompareError
    ensures PositiveCell(columns, v) ==> r == Ok(v.emp.dailyValue.value.x)
    ensures r.Ok? && !PositiveCell(columns, v) ==>
      r.value == (if Contains(UnionName(columns, v), "SINDPD SP") then 37.5 else FallbackRate)
    ensures r.Ok? ==> r.value > 0.0
  {
    var cell := if DailyValueColumn in columns then v.emp.dailyValue else None;
    if cell.Some? && cell.value.Text? then Err(CompareError)
    else if cell.Some? && cell.value.x > 0.0 then Ok(cell.value.x)
    else
      var fixed := Rules.FixedRate(UnionName(columns, v), Rules.FixedRates);
      FixedRatesAbove(UnionName(columns, v));
      Ok(if fixed.Some? then fixed.value else FallbackRate)
  }

  /** Among the fixed rates only `SINDPD SP`, the first key, pays other than 35.0. */
  lemma FixedRatesAbove(name: string)
    ensures Rules.FixedRate(name, Rules.FixedRates).Some? ==>
      Rules.FixedRate(name, Rules.FixedRates).value == (if Contains(name, "SINDPD SP") then 37.5 else 35.0)
    ensures Rules.FixedRate(name, Rules.FixedRates).None? ==> !Contains(name, "SINDPD SP")
  {
    var rates := Rules.FixedRates;
    assert rates[0] == ("SINDPD SP", 37.5);
    if Rules.FixedRate(name, rates).Some? && !Contains(name, "SINDPD SP") {
      assert forall k :: 1 <= k < |rates| ==> rates[k].1 == 35.0;
    }
  }

  // ---------------------------------------------------------------------------
  // _generate_employee_observations
  // ---------------------------------------------------------------------------

  /** What the note would be without any calculation part; it is never produced. */
  const NormalNote := "CÁLCULO NORMAL"

  /** The last part of every note: `f'{dias} dias × R$ {valor_diario:.2f}'`. */
  function CalcText(days: int, rate: real): string {
    IntToString(days) + " dias × R$ " + FormatFixed2(rate)
  }

  function VacationNote(columns: set<string>, v: Validated): string {
    "AJUSTE FÉRIAS: " + IntToString(VacationDaysOf(columns, v)) + " dias descontados"
  }

  function DismissalNote(limit: ValidDate): string {
    "DESLIGAMENTO PROPORCIONAL até " + Format(limit)
  }

  /** The parts of the note before the calculation part. */
  function NoteHead(columns: set<string>, v: Validated): (r: seq<string>)
    ensures |r| <= 1
  {
    match RegimeOf(columns, v)
    case Ferias => [VacationNote(columns, v)]
    case Proporcional(limit) => if limit.Some? then [DismissalNote(limit.value)] else []
    case _ => []
  }

  /**
   * `_generate_employee_observations`: an optional regime part, then the
   * calculation part, joined by "; ".
   */
  function Observations(columns: set<string>, v: Validated, days: int, rate: real): (r: string)
    ensures Contains(r, CalcText(days, rate))
    ensures r != NormalNote
    ensures RegimeOf(columns, v).Ferias? ==> StartsWith(r, VacationNote(columns, v))
    ensures RegimeOf(columns, v).Proporcional? && RegimeOf(columns, v).limit.Some? ==>
      StartsWith(r, DismissalNote(RegimeOf(columns, v).limit.value))
    ensures NoteHead(columns, v) == [] ==> r == CalcText(days, rate)
  {
    var notes := NoteHead(columns, v) + [CalcText(days, rate)];
    JoinContainsPart(notes, "; ", |notes| - 1);
    JoinStartsWithFirst(notes, "; ");
    CalcTextMarker(days, rate);
    NormalNoteHasNoCalcText(CalcText(days, rate));
    if notes != [] then Join(notes, "; ") else NormalNote
  }

  lemma CalcTextMarker(days: int, rate: real)
    ensures Contains(CalcText(days, rate), " dias × R$ ")
  {
    var n := IntToString(days);
    var sub := " dias × R$ ";
    assert CalcText(days, rate)[|n|..|n| + |sub|] == sub;
    assert OccursAt(CalcText(days, rate), sub, |n|);
  }

  lemma NormalNoteHasNoMarker()
    ensures !Contains(NormalNote, " dias × R$ ")
  {
    var sub := " dias × R$ ";
    forall i | 0 <= i <= |NormalNote| - |sub|
      ensures !OccursAt(NormalNote, sub, i)
    {
      assert NormalNote[i] != sub[0];
    }
  }

  /** The fixed note does not contain the calculation part, so no row ever gets it. */
  lemma NormalNoteHasNoCalcText(part: string)
    requires Contains(part, " dias × R$ ")
    ensures !Contains(NormalNote, part)
  {
    NormalNoteHasNoMarker();
    if Contains(NormalNote, part) {
      ContainsTransitive(NormalNote, part, " dias × R$ ");
      assert false;
    }
  }

  // ---------------------------------------------------------------------------
  // _calculate_individual_benefits
  // ---------------------------------------------------------------------------

  /** The prefix of the note of a row whose calculation raised. */
  const ErrorPrefix := "ERRO NO CÁLCULO: "

  /** `employee['MATRICULA']` on a table without that column. */
  const MissingMatricula := "'MATRICULA'"

  /** The columns the stage adds. */
  const CalculationColumns: set<string> := {"DIAS_CALCULO", "VALOR_TOTAL_VR", "CUSTO_EMPRESA", "DESCONTO_PROFISSIONAL", "OBSERVACOES"}

  /** The amounts stay within one cent of splitting exactly. */
  predicate SplitConsistent(c: CalcRow) {
    -0.01 <= c.total - (c.company + c.employee) <= 0.01
  }

  /** `round(valor_total, 2)`, `round(valor_total * 0.8, 2)` and `round(valor_total * 0.2, 2)`. */
  function SplitAmounts(days: int, rate: real): (r: (real, real, real))
    ensures -0.01 <= r.0 - (r.1 + r.2) <= 0.01
  {
    var total := days as real * rate;
    SplitWithinCent(total);
    (Round2(total), Round2(total * 0.8), Round2(total * 0.2))
  }

  /**
   * One row of the loop: on success the paid days, the rounded amounts and
   * the note; when the rate raises, the initial zeros and the error note.
   */
  function CalculateRow(columns: set<string>, v: Validated): (c: CalcRow)
    ensures c.row == v
    ensures SplitConsistent(c)
  {
    match DailyValue(columns, v)
    case Err(msg) => CalcRow(v, 0, 0.0, 0.0, 0.0, ErrorPrefix + msg)
    case Ok(rate) =>
      var days := PaidDays(columns, v);
      var amounts := SplitAmounts(days, rate);
      CalcRow(v, days, amounts.0, amounts.1, amounts.2, Observations(columns, v, days, rate))
  }

  /** A row whose rate raises keeps zero days and amounts, and its note names the error. */
  lemma FailedRowKeepsZeros(columns: set<string>, v: Validated)
    requires DailyValueColumn in columns && v.emp.dailyValue.Some? && v.emp.dailyValue.value.Text?
    ensures var c := CalculateRow(columns, v);
      c.days == 0 && c.total == 0.0 && c.company == 0.0 && c.employee == 0.0
      && c.notes == ErrorPrefix + CompareError
  {
  }

  lemma BenefitValuesAgree(rate: real, days: int)
    ensures var b := Rules.CalculateBenefitValues(rate, days);
      SplitAmounts(days, rate) == (Round2(b.total), Round2(b.company), Round2(b.employee))
  {
    var b := Rules.CalculateBenefitValues(rate, days);
    assert b.total == days as real * rate;
  }

  /**
   * A row whose rate is found is paid its days at that rate: the amounts
   * are those of `calculate_benefit_values` rounded to the cent, and the
   * note carries the days and the rate.
   */
  lemma PaidRowMatchesRules(columns: set<string>, v: Validated)
    requires DailyValue(columns, v).Ok?
    ensures var c := CalculateRow(columns, v);
      var rate := DailyValue(columns, v).value;
      var b := Rules.CalculateBenefitValues(rate, PaidDays(columns, v));
      && c.days == PaidDays(columns, v)
      && c.total == Round2(b.total) && c.company == Round2(b.company) && c.employee == Round2(b.employee)
      && Contains(c.notes, CalcText(c.days, rate))
  {
    var rate := DailyValue(columns, v).value;
    var days := PaidDays(columns, v);
    var amounts := SplitAmounts(days, rate);
    assert CalculateRow(columns, v) == CalcRow(v, days, amounts.0, amounts.1, amounts.2, Observations(columns, v, days, rate));
    BenefitValuesAgree(rate, days);
  }

  /**
   * One iteration of the loop: row `i`'s days, amounts and note written into
   * the result columns, which hold zeros there until then; a failed rate
   * lookup writes only the note.
   */
  method WriteRow(columns: set<string>, v: Validated, i: nat,
                  dias: seq<int>, valorTotal: seq<real>, custoEmpresa: seq<real>, descontoProfissional: seq<real>, observacoes: seq<string>)
    returns (dias': seq<int>, valorTotal': seq<real>, custoEmpresa': seq<real>, descontoProfissional': seq<real>, observacoes': seq<string>)
    requires i < |dias| == |valorTotal| == |custoEmpresa| == |descontoProfissional| == |observacoes|
    requires dias[i] == 0 && valorTotal[i] == 0.0 && custoEmpresa[i] == 0.0 && descontoProfissional[i] == 0.0
    ensures |dias'| == |dias| && dias' == dias[i := dias'[i]]
    ensures |valorTotal'| == |valorTotal| && valorTotal' == valorTotal[i := valorTotal'[i]]
    ensures |custoEmpresa'| == |custoEmpresa| && custoEmpresa' == custoEmpresa[i := custoEmpresa'[i]]
    ensures |descontoProfissional'| == |descontoProfissional| && descontoProfissional' == descontoProfissional[i := descontoProfissional'[i]]
    ensures |observacoes'| == |observacoes| && observacoes' == observacoes[i := observacoes'[i]]
    ensures CalcRow(v, dias'[i], valorTotal'[i], custoEmpresa'[i], descontoProfissional'[i], observacoes'[i]) == CalculateRow(columns, v)
  {
    dias', valorTotal', custoEmpresa', descontoProfissional', observacoes' := dias, valorTotal, custoEmpresa, descontoProfissional, observacoes;
    var diasCalculo := PaidDays(columns, v);
    var valorDiario := DailyValue(columns, v);
    if valorDiario.Ok? {
      var amounts := SplitAmounts(diasCalculo, valorDiario.value);
      dias' := dias'[i := diasCalculo];
      valorTotal' := valorTotal'[i := amounts.0];
      custoEmpresa' := custoEmpresa'[i := amounts.1];
      descontoProfissional' := descontoProfissional'[i := amounts.2];
      observacoes' := observacoes'[i := Observations(columns, v, diasCalculo, valorDiario.value)];
    } else {
      observacoes' := observacoes'[i := ErrorPrefix + valorDiario.msg];
    }
  }

  /**
   * `_calculate_individual_benefits`: the five result columns start at
   * zero and empty, then each row is filled in place; a row whose rate
   * raises keeps its zeros and gets the error note. Reading `MATRICULA`
   * sits outside the per-row `try`, so without that column the first row
   * aborts the stage.
   */
  method CalculateIndividualBenefits(columns: set<string>, rows: seq<Validated>) returns (r: Result<seq<CalcRow>>)
    ensures MatriculaColumn !in columns && |rows| > 0 ==> r == Err(MissingMatricula)
    ensures MatriculaColumn in columns || |rows| == 0 ==>
      r.Ok? && |r.value| == |rows| && forall j :: 0 <= j < |rows| ==> r.value[j] == CalculateRow(columns, rows[j])
  {
    var dias := seq(|rows|, j => 0);
    var valorTotal := seq(|rows|, j => 0.0);
    var custoEmpresa := seq(|rows|, j => 0.0);
    var descontoProfissional := seq(|rows|, j => 0.0);
    var observacoes := seq(|rows|, j => "");
    var i := 0;
    while i < |rows|
      invariant 0 <= i <= |rows|
      invariant |dias| == |valorTotal| == |custoEmpresa| == |descontoProfissional| == |observacoes| == |rows|
      invariant i > 0 ==> MatriculaColumn in columns
      invariant forall j :: 0 <= j < i ==>
        CalcRow(rows[j], dias[j], valorTotal[j], custoEmpresa[j], descontoProfissional[j], observacoes[j])
        == CalculateRow(columns, rows[j])
      invariant forall j :: i <= j < |rows| ==>
        dias[j] == 0 && valorTotal[j] == 0.0 && custoEmpresa[j] == 0.0 && descontoProfissional[j] == 0.0
    {
      if MatriculaColumn !in columns {
        return Err(MissingMatricula);
      }
      dias, valorTotal, custoEmpresa, descontoProfissional, observacoes :=
        WriteRow(columns, rows[i], i, dias, valorTotal, custoEmpresa, descontoProfissional, observacoes);
      i := i + 1;
    }
    r := Ok(seq(|rows|, j requires 0 <= j < |rows| =>
      CalcRow(rows[j], dias[j], valorTotal[j], custoEmpresa[j], descontoProfissional[j], observacoes[j])));
  }

  // ---------------------------------------------------------------------------
  // _validate_calculation_results
  // ---------------------------------------------------------------------------

  predicate ZeroTotal(c: CalcRow) {
    c.total == 0.0
  }

  predicate Inconsistent(c: CalcRow) {
    !SplitConsistent(c)
  }

  /**
   * `_validate_calculation_results`: the rows with a zero total, and the
   * rows whose employer and employee amounts miss the total by more than a
   * cent (both only logged).
   */
  method ValidateCalculationResults(rows: seq<CalcRow>) returns (zeroValues: nat, inconsistencies: nat)
    ensures zeroValues == CountWhere(rows, ZeroTotal)
    ensures inconsistencies == CountWhere(rows, Inconsistent)
  {
    zeroValues := CountWhere(rows, ZeroTotal);
    inconsistencies := 0;
    var i := 0;
    while i < |rows|
      invariant 0 <= i <= |rows|
      invariant inconsistencies == CountWhere(rows[..i], Inconsistent)
    {
      assert rows[..i + 1][..i] == rows[..i];
      var total := rows[i].total;
      var empresa := rows[i].company;
      var colaborador := rows[i].employee;
      if total - (empresa + colaborador) > 0.01 || total - (empresa + colaborador) < -0.01 {
        inconsistencies := inconsistencies + 1;
      }
      i := i + 1;
    }
    assert rows[..i] == rows;
  }

  /** Rows none of which is inconsistent count no inconsistency. */
  lemma {:induction false} NoneInconsistent(rows: seq<CalcRow>)
    requires forall j :: 0 <= j < |rows| ==> SplitConsistent(rows[j])
    ensures CountWhere(rows, Inconsistent) == 0
  {
    if rows != [] {
      NoneInconsistent(rows[..|rows| - 1]);
    }
  }

  /** The check never fires on rows the stage calculated: rounding the shares separately stays within a cent. */
  lemma CalculatedRowsConsistent(columns: set<string>, rows: seq<Validated>, out: seq<CalcRow>)
    requires |out| == |rows| && forall j :: 0 <= j < |rows| ==> out[j] == CalculateRow(columns, rows[j])
    ensures CountWhere(out, Inconsistent) == 0
  {
    NoneInconsistent(out);
  }

  // ---------------------------------------------------------------------------
  // _calculate_final_statistics (counts only)
  // ---------------------------------------------------------------------------

  /** Union keys are cut to this many characters. */
  const UnionKeyLength := 50

  /** The non-null union names of the rows, in order, repeats included (`dropna()`). */
  function UnionNames(rows: seq<CalcRow>): (r: seq<string>)
    ensures forall u :: u in r <==> exists j :: 0 <= j < |rows| && rows[j].row.emp.union == Some(u)
  {
    if rows == [] then []
    else
      var init := UnionNames(rows[..|rows| - 1]);
      var last := rows[|rows| - 1].row.emp.union;
      assert forall j :: 0 <= j < |rows| - 1 ==> rows[..|rows| - 1][j] == rows[j];
      init + (if last.Some? then [last.value] else [])
  }

  /** The key under which `.unique()` compares union names: the name itself. */
  function Identity(u: string): string {
    u
  }

  /** `.unique()`: each non-null union once, in order of first appearance. */
  function UniqueUnions(rows: seq<CalcRow>): seq<string> {
    DedupBy(UnionNames(rows), Identity)
  }

  lemma UniqueUnionsMeaning(rows: seq<CalcRow>)
    ensures forall u :: u in UniqueUnions(rows) <==> exists j :: 0 <= j < |rows| && rows[j].row.emp.union == Some(u)
    ensures forall i, j :: 0 <= i < j < |UniqueUnions(rows)| ==> UniqueUnions(rows)[i] != UniqueUnions(rows)[j]
  {
    var names := UnionNames(rows);
    forall u ensures u in UniqueUnions(rows) <==> u in names {
      DedupKeys(names, Identity, u);
      if u in names {
        var j :| 0 <= j < |names| && names[j] == u;
        assert Identity(names[j]) == u;
      }
      if u in UniqueUnions(rows) {
        var j :| 0 <= j < |UniqueUnions(rows)| && UniqueUnions(rows)[j] == u;
        assert Identity(UniqueUnions(rows)[j]) == u;
      }
    }
    DedupUnique(names, Identity);
  }

  /** `len(df[df['Sindicato'] == union])`. */
  function UnionCount(rows: seq<CalcRow>, u: string): (n: nat)
    ensures n <= |rows|
  {
    if rows == [] then 0
    else UnionCount(rows[..|rows| - 1], u) + (if rows[|rows| - 1].row.emp.union == Some(u) then 1 else 0)
  }

  /** The last union in `names` whose 50-character key is `k`, if any. */
  function LastWithKey(names: seq<string>, k: string): (r: Option<string>)
    ensures r.None? <==> forall u :: u in names ==> Prefix(u, UnionKeyLength) != k
    ensures r.Some? ==> exists i :: 0 <= i < |names| && names[i] == r.value && Prefix(r.value, UnionKeyLength) == k
                          && forall j :: i < j < |names| ==> Prefix(names[j], UnionKeyLength) != k
  {
    if names == [] then None
    else
      var init := names[..|names| - 1];
      var last := names[|names| - 1];
      assert forall u :: u in names <==> u in init || u == last;
      if Prefix(last, UnionKeyLength) == k then Some(last)
      else
        var r := LastWithKey(init, k);
        if r.Some? then
          var i :| 0 <= i < |init| && init[i] == r.value && Prefix(r.value, UnionKeyLength) == k
                   && forall j :: i < j < |init| ==> Prefix(init[j], UnionKeyLength) != k;
          assert names[i] == init[i];
          assert forall j :: i < j < |names| ==> Prefix(names[j], UnionKeyLength) != k by {
            forall j | i < j < |names| ensures Prefix(names[j], UnionKeyLength) != k {
              if j < |init| { assert names[j] == init[j]; }
            }
          }
          r
        else r
  }

  /**
   * The `employees` counts keyed by `str(union)[:50]`: a key is present
   * exactly when some union is cut to it, and holds the row count of the
   * LAST such union.
   */
  function UnionStats(names: seq<string>, rows: seq<CalcRow>): (m: map<string, nat>)
    ensures forall k :: k in m <==> LastWithKey(names, k).Some?
    ensures forall k :: k in m ==> m[k] == UnionCount(rows, LastWithKey(names, k).value)
  {
    if names == [] then map[]
    else
      var last := names[|names| - 1];
      UnionStats(names[..|names| - 1], rows)[Prefix(last, UnionKeyLength) := UnionCount(rows, last)]
  }

  /** The count of each regime tag (`value_counts()` of `TIPO_CALCULO`). */
  function CalcTags(rows: seq<CalcRow>): (r: seq<Option<string>>)
    ensures |r| == |rows| && forall j :: 0 <= j < |r| ==> r[j] == Some(rows[j].row.regime.Tag())
  {
    seq(|rows|, j requires 0 <= j < |rows| => Some(rows[j].row.regime.Tag()))
  }

  /** The counts `_calculate_final_statistics` stores. */
  datatype CalcStats = CalcStats(employees: nat, unions: map<string, nat>, types: map<string, nat>)

  /**
   * `_calculate_final_statistics`, counts only: the row count, the union
   * counts (empty without a `Sindicato` column) built one union at a time,
   * and the regime counts (empty without `TIPO_CALCULO`).
   */
  method CalculateFinalStatistics(columns: set<string>, rows: seq<CalcRow>) returns (s: CalcStats)
    ensures s.employees == |rows|
    ensures s.unions == if UnionColumn in columns then UnionStats(UniqueUnions(rows), rows) else map[]
    ensures s.types == if RegimeColumn in columns then ValueCounts(CalcTags(rows)) else map[]
  {
    var unionStats: map<string, nat> := map[];
    if UnionColumn in columns {
      var unions := UniqueUnions(rows);
      var i := 0;
      while i < |unions|
        invariant 0 <= i <= |unions|
        invariant unionStats == UnionStats(unions[..i], rows)
      {
        assert unions[..i + 1][..i] == unions[..i];
        unionStats := unionStats[Prefix(unions[i], UnionKeyLength) := UnionCount(rows, unions[i])];
        i := i + 1;
      }
      assert unions[..i] == unions;
    }
    var calcTypeStats: map<string, nat> := map[];
    if RegimeColumn in columns {
      calcTypeStats := ValueCounts(CalcTags(rows));
    }
    s := CalcStats(|rows|, unionStats, calcTypeStats);
  }

  /** Every regime tag is counted once per row carrying it. */
  lemma TypeStatsMeaning(rows: seq<CalcRow>)
    ensures forall k :: k in ValueCounts(CalcTags(rows)) <==> exists j :: 0 <= j < |rows| && rows[j].row.regime.Tag() == k
  {
    forall k ensures k in ValueCounts(CalcTags(rows)) <==> exists j :: 0 <= j < |rows| && rows[j].row.regime.Tag() == k {
      if exists j :: 0 <= j < |rows| && rows[j].row.regime.Tag() == k {
        var j :| 0 <= j < |rows| && rows[j].row.regime.Tag() == k;
        assert CalcTags(rows)[j] == Some(k);
      }
    }
  }

  // ---------------------------------------------------------------------------
  // CalculationAgent.execute
  // ---------------------------------------------------------------------------

  /** Reading the undefined name `workdays` right after storing `calculated_df`. */
  const UndefinedWorkdays := "name 'workdays' is not defined"

  /** Stores the counts of `_calculate_final_statistics`. */
  method StoreCalcStats(st: VRState, s: CalcStats)
    modifies st
    ensures st.totalCalculatedEmployees == s.employees
    ensures st.unionCalculationStats == s.unions && st.calculationTypeStats == s.types
    ensures st.errors == old(st.errors) && st.success == old(st.success) && st.processingStage == old(st.processingStage)
    ensures st.Inputs() == old(st.Inputs()) && st.ConsolidationKeys() == old(st.ConsolidationKeys())
    ensures st.validated == old(st.validated) && st.ExclusionKeys() == old(st.ExclusionKeys())
    ensures st.DistributionKeys() == old(st.DistributionKeys()) && st.calculated == old(st.calculated)
  {
    st.totalCalculatedEmployees := s.employees;
    st.unionCalculationStats := s.unions;
    st.calculationTypeStats := s.types;
  }

  /** The calculated table: every validated row through the row loop. */
  function CalculatedRows(columns: set<string>, rows: seq<Validated>): (r: seq<CalcRow>)
    ensures |r| == |rows| && forall j :: 0 <= j < |rows| ==> r[j] == CalculateRow(columns, rows[j])
  {
    seq(|rows|, j requires 0 <= j < |rows| => CalculateRow(columns, rows[j]))
  }

  /** Stores `calculated_df` and its counts, then records the `NameError` of the following line. */
  method StoreCalculated(st: VRState, out: seq<CalcRow>, s: CalcStats)
    modifies st
    ensures st.calculated == Some(out)
    ensures st.totalCalculatedEmployees == s.employees
    ensures st.unionCalculationStats == s.unions && st.calculationTypeStats == s.types
    ensures st.errors == old(st.errors) + [StageError("calculation", UndefinedWorkdays)]
    ensures !st.success && st.processingStage == "calculation_failed"
    ensures st.Inputs() == old(st.Inputs()) && st.ConsolidationKeys() == old(st.ConsolidationKeys())
    ensures st.validated == old(st.validated) && st.ExclusionKeys() == old(st.ExclusionKeys())
    ensures st.DistributionKeys() == old(st.DistributionKeys())
  {
    StoreCalcStats(st, s);
    st.calculated := Some(out);
    st.RecordError("calculation", UndefinedWorkdays);
  }

  /** The body of `execute` once the validated table is present and not empty. */
  method CalculateTable(st: VRState, t: ValidatedTable)
    requires |t.rows| > 0
    modifies st
    ensures MatriculaColumn !in t.columns ==>
      st.errors == old(st.errors) + [StageError("calculation", MissingMatricula)] && st.calculated == old(st.calculated)
      && st.CalculationStats() == old(st.CalculationStats())
    ensures MatriculaColumn in t.columns ==>
      var out := CalculatedRows(t.columns, t.rows);
      && st.calculated == Some(out)
      && st.totalCalculatedEmployees == |t.rows|
      && st.unionCalculationStats == (if UnionColumn in t.columns then UnionStats(UniqueUnions(out), out) else map[])
      && st.calculationTypeStats == (if RegimeColumn in t.columns then ValueCounts(CalcTags(out)) else map[])
      && st.errors == old(st.errors) + [StageError("calculation", UndefinedWorkdays)]
    ensures !st.success && st.processingStage == "calculation_failed"
    ensures st.Inputs() == old(st.Inputs()) && st.ConsolidationKeys() == old(st.ConsolidationKeys())
    ensures st.validated == old(st.validated) && st.ExclusionKeys() == old(st.ExclusionKeys())
    ensures st.DistributionKeys() == old(st.DistributionKeys())
  {
    var r := CalculateIndividualBenefits(t.columns, t.rows);
    if r.Err? {
      st.RecordError("calculation", r.msg);
      return;
    }
    var out := r.value;
    assert out == CalculatedRows(t.columns, t.rows);
    var zeroValues, inconsistencies := ValidateCalculationResults(out);
    var s := CalculateFinalStatistics(t.columns, out);
    StoreCalculated(st, out, s);
  }

  /** `df is None or df.empty`: no rows or no columns. */
  predicate EmptyFrame(t: ValidatedTable) {
    |t.rows| == 0 || t.columns == {}
  }

  /**
   * `CalculationAgent.execute`. Without a validated table, or with an
   * empty one, it records the matching error. Otherwise the rows are
   * calculated, checked and counted, and `calculated_df` is stored; the
   * next line names an undefined variable, so the stage still ends with
   * an error and `success=False`.
   */
  method Execute(st: VRState)
    modifies st
    ensures old(st.validated).None? ==>
      st.errors == old(st.errors) + [StageError("calculation", "DataFrame validado não encontrado no estado")]
      && st.calculated == old(st.calculated) && st.CalculationStats() == old(st.CalculationStats())
    ensures old(st.validated).Some? && EmptyFrame(old(st.validated).value) ==>
      st.errors == old(st.errors) + [StageError("calculation", "DataFrame validado está vazio ou inválido")]
      && st.calculated == old(st.calculated) && st.CalculationStats() == old(st.CalculationStats())
    ensures old(st.validated).Some? && !EmptyFrame(old(st.validated).value) && MatriculaColumn !in old(st.validated).value.columns ==>
      st.errors == old(st.errors) + [StageError("calculation", MissingMatricula)] && st.calculated == old(st.calculated)
      && st.CalculationStats() == old(st.CalculationStats())
    ensures old(st.validated).Some? && !EmptyFrame(old(st.validated).value) && MatriculaColumn in old(st.validated).value.columns ==>
      var t := old(st.validated).value;
      var out := CalculatedRows(t.columns, t.rows);
      && st.calculated == Some(out)
      && st.totalCalculatedEmployees == |t.rows|
      && st.unionCalculationStats == (if UnionColumn in t.columns then UnionStats(UniqueUnions(out), out) else map[])
      && st.calculationTypeStats == (if RegimeColumn in t.columns then ValueCounts(CalcTags(out)) else map[])
      && st.errors == old(st.errors) + [StageError("calculation", UndefinedWorkdays)]
    ensures !st.success && st.processingStage == "calculation_failed"
    ensures st.Inputs() == old(st.Inputs()) && st.ConsolidationKeys() == old(st.ConsolidationKeys())
    ensures st.validated == old(st.validated) && st.ExclusionKeys() == old(st.ExclusionKeys())
    ensures st.DistributionKeys() == old(st.DistributionKeys())
  {
    if st.validated.None? {
      st.RecordError("calculation", "DataFrame validado não encontrado no estado");
      return;
    }
    var t := st.validated.value;
    if |t.rows| == 0 || t.columns == {} {
      st.RecordError("calculation", "DataFrame validado está vazio ou inválido");
      return;
    }
    CalculateTable(st, t);
  }

  // ---------------------------------------------------------------------------
  // Validation and calculation together
  // ---------------------------------------------------------------------------

  /**
   * Validation keeps a dismissed row only when its dismissal day is after
   * the 15th, so the half-month branch never fires: every `PROPORCIONAL`
   * row it hands over is paid the full base.
   */
  lemma ProportionalRowsPaidInFull(columns: set<string>, rows: seq<Employee>, calcColumns: set<string>)
    ensures forall v :: v in Validation.ValidatedRows(columns, rows) && v.regime.Proporcional? ==>
      PaidDays(calcColumns, v) == BaseDays(calcColumns, v)
  {
    var a := Validation.AssessedRows(columns, rows);
    var out := Validation.ValidatedRows(columns, rows);
    Validation.AssessmentsMeaning(rows);
    forall v | v in out && v.regime.Proporcional?
      ensures PaidDays(calcColumns, v) == BaseDays(calcColumns, v)
    {
      var j :| 0 <= j < |out| && out[j] == v;
      assert v == Validation.VacationOutcome(columns, a[j]);
      assert a[j].regime == v.regime;
      assert a[j] in a;
    }
  }
}
