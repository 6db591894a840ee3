/**
 * The consolidation stage: the ATIVOS roster, deduplicated by MATRICULA,
 * becomes the base table; the vacation, dismissal and admission tables are
 * deduplicated and left-merged into it; the exclusion lists become boolean
 * flag columns; and the union tables supply the daily value and the
 * workday count of each row.
 */
module Consolidation {
  import opened Wrappers
  import opened Dates
  import opened Tables
  import opened Seqs
  import opened PipelineState

  // ---------------------------------------------------------------------------
  // Keys and merge combinators
  // ---------------------------------------------------------------------------

  function RosterId(r: RosterRow): int {
    r.matricula
  }

  function EmployeeKey(e: Employee): Option<int> {
    Some(e.matricula)
  }

  function VacationKey(v: VacationRow): Option<int> {
    v.matricula
  }

  function DismissalKey(d: DismissalRow): Option<int> {
    d.matricula
  }

  function AdmissionKey(a: AdmissionRow): Option<int> {
    a.matricula
  }

  /** The `DIAS DE FÉRIAS` cell a merge brings in: null when no row matched. */
  function WithVacation(e: Employee, v: Option<VacationRow>): Employee {
    e.(vacationDays := if v.Some? then v.value.days else None)
  }

  function WithDismissal(e: Employee, d: Option<DismissalRow>): Employee {
    e.(dismissalDate := if d.Some? then d.value.date else None)
  }

  function WithAdmission(e: Employee, a: Option<AdmissionRow>): Employee {
    e.(admissionDate := if a.Some? then a.value.admission else None)
  }

  // ---------------------------------------------------------------------------
  // When each auxiliary table takes part
  // ---------------------------------------------------------------------------

  predicate VacationUsable(raw: RawFiles) {
    && raw.ferias.Some? && |raw.ferias.value.rows| > 0
    && MatriculaColumn in raw.ferias.value.columns && VacationDaysColumn in raw.ferias.value.columns
  }

  predicate DismissalUsable(raw: RawFiles) {
    raw.desligados.Some? && |raw.desligados.value.rows| > 0 && MatriculaColumn in raw.desligados.value.columns
  }

  /** The dismissal table also has a `DATA_DEMISSAO` column, which is merged. */
  predicate DismissalDated(raw: RawFiles) {
    DismissalUsable(raw) && DismissalDateColumn in raw.desligados.value.columns
  }

  /**
   * The dismissal table spells its date column only `DATA DEMISSÃO`: the
   * column is renamed before `desligados_df[cols_to_keep]` selects it under
   * the old name, so pandas raises `KeyError` and the stage fails.
   */
  predicate AccentedDismissalOnly(raw: RawFiles) {
    && DismissalUsable(raw)
    && DismissalDateColumn !in raw.desligados.value.columns
    && DismissalDateAccentedColumn in raw.desligados.value.columns
  }

  /** `str()` of the `KeyError` pandas raises for the missing column. */
  const AccentedColumnError := "\"['DATA DEMISSÃO'] not in index\""

  predicate AdmissionUsable(raw: RawFiles) {
    && raw.admissao.Some? && |raw.admissao.value.rows| > 0
    && MatriculaColumn in raw.admissao.value.columns && AdmissionSourceColumn in raw.admissao.value.columns
  }

  /** The non-null identifiers of a list, read from `MATRICULA`. */
  function MatriculaIds(rows: seq<IdRow>): set<int> {
    set r | r in rows && r.matricula.Some? :: r.matricula.value
  }

  /** The non-null identifiers of a list, read from `Cadastro`. */
  function CadastroIds(rows: seq<IdRow>): set<int> {
    set r | r in rows && r.cadastro.Some? :: r.cadastro.value
  }

  /**
   * The identifiers a category's flag tests against, or `None` when the flag
   * column is not created (no table, an empty table, or neither identifier column).
   */
  function FlagIds(raw: RawFiles, c: Category): Option<set<int>> {
    match CategoryTable(raw, c)
    case None => None
    case Some(t) =>
      if |t.rows| == 0 then None
      else if MatriculaColumn in t.columns then Some(MatriculaIds(t.rows))
      else if CadastroColumn in t.columns then Some(CadastroIds(t.rows))
      else None
  }

  /** The identifiers of the dismissal table. */
  function DismissedIds(rows: seq<DismissalRow>): set<int> {
    set r | r in rows && r.matricula.Some? :: r.matricula.value
  }

  // ---------------------------------------------------------------------------
  // The row each roster row becomes
  // ---------------------------------------------------------------------------

  /** The category flag after one list has been applied. */
  function MarkCategory(raw: RawFiles, e: Employee, c: Category): Employee {
    match FlagIds(raw, c)
    case Some(ids) => e.WithFlag(c, e.matricula in ids)
    case None => e
  }

  /** The position of a category in the processing order. */
  function CategoryIndex(c: Category): (i: nat)
    ensures i < |Categories| && Categories[i] == c
  {
    match c
    case Intern => 0
    case Apprentice => 1
    case OnLeave => 2
    case Abroad => 3
  }

  /** A flag once the first `n` lists have been applied: set from its list when that list was processed and usable. */
  function FlagAfter(raw: RawFiles, e: Employee, n: nat, c: Category): bool {
    if CategoryIndex(c) < n && FlagIds(raw, c).Some? then e.matricula in FlagIds(raw, c).value else e.Flag(c)
  }

  /** The row after the first `n` exclusion lists have been applied. */
  function FlagsThrough(raw: RawFiles, e: Employee, n: nat): Employee {
    e.(flags := Flags(FlagAfter(raw, e, n, Intern), FlagAfter(raw, e, n, Apprentice),
                      FlagAfter(raw, e, n, OnLeave), FlagAfter(raw, e, n, Abroad)))
  }

  /** With no list applied the row is unchanged. */
  lemma FlagsThroughZero(raw: RawFiles, e: Employee)
    ensures FlagsThrough(raw, e, 0) == e
  {
    assert e.flags == Flags(e.Flag(Intern), e.Flag(Apprentice), e.Flag(OnLeave), e.Flag(Abroad));
  }

  /** Processing list `n` takes the row from `n` lists applied to `n + 1`. */
  lemma MarkStep(raw: RawFiles, e: Employee, n: nat)
    requires n < |Categories|
    ensures MarkCategory(raw, FlagsThrough(raw, e, n), Categories[n]) == FlagsThrough(raw, e, n + 1)
  {
    var c := Categories[n];
    var x := MarkCategory(raw, FlagsThrough(raw, e, n), c);
    forall d ensures x.Flag(d) == FlagsThrough(raw, e, n + 1).Flag(d) {
      assert CategoryIndex(d) == n <==> d == c;
    }
    assert x.flags.Get(Intern) == FlagsThrough(raw, e, n + 1).flags.Get(Intern);
    assert x.flags.Get(Apprentice) == FlagsThrough(raw, e, n + 1).flags.Get(Apprentice);
    assert x.flags.Get(OnLeave) == FlagsThrough(raw, e, n + 1).flags.Get(OnLeave);
    assert x.flags.Get(Abroad) == FlagsThrough(raw, e, n + 1).flags.Get(Abroad);
  }

  /** The flag columns created by the first `n` lists. */
  function FlagColumnsThrough(raw: RawFiles, n: nat): set<string>
    requires n <= |Categories|
  {
    if n == 0 then {}
    else FlagColumnsThrough(raw, n - 1)
         + (if FlagIds(raw, Categories[n - 1]).Some? then {FlagColumn(Categories[n - 1])} else {})
  }

  /** The vacation merge applied to one row. */
  function RowVacation(raw: RawFiles, e: Employee): Employee {
    if VacationUsable(raw)
    then WithVacation(e, FindFirst(raw.ferias.value.rows, VacationKey, Some(e.matricula)))
    else e
  }

  /** The dismissal merge and the `IS_DESLIGADO` flag applied to one row. */
  function RowDismissal(raw: RawFiles, e: Employee): Employee {
    var d := if DismissalDated(raw)
             then WithDismissal(e, FindFirst(raw.desligados.value.rows, DismissalKey, Some(e.matricula)))
             else e;
    if DismissalUsable(raw) then d.(isDismissed := e.matricula in DismissedIds(raw.desligados.value.rows)) else d
  }

  /** The admission merge applied to one row. */
  function RowAdmission(raw: RawFiles, e: Employee): Employee {
    if AdmissionUsable(raw)
    then WithAdmission(e, FindFirst(raw.admissao.value.rows, AdmissionKey, Some(e.matricula)))
    else e
  }

  /** What consolidation makes of one deduplicated roster row. */
  function ConsolidatedRow(raw: RawFiles, e: Employee): Employee {
    RowAdmission(raw, RowDismissal(raw, FlagsThrough(raw, RowVacation(raw, e), |Categories|)))
  }

  /** The columns consolidation adds to the roster's. */
  function ConsolidatedColumns(raw: RawFiles, base: set<string>): set<string> {
    base
    + (if VacationUsable(raw) then {VacationDaysColumn} else {})
    + FlagColumnsThrough(raw, |Categories|)
    + (if DismissalDated(raw) then {DismissalDateColumn} else {})
    + (if DismissalUsable(raw) then {DismissedColumn} else {})
    + (if AdmissionUsable(raw) then {AdmissionColumn} else {})
  }

  /**
   * The properties of a consolidated row: its roster part is unchanged,
   * `DIAS DE FÉRIAS` comes from the FIRST vacation row of its identifier,
   * each flag is membership in its list's identifiers, `IS_DESLIGADO` is
   * membership in the dismissal table, and the two dates come from the first
   * matching row; a table that does not take part changes nothing.
   */
  lemma ConsolidatedRowFields(raw: RawFiles, e: Employee)
    ensures ConsolidatedRow(raw, e).Roster() == e.Roster()
    ensures ConsolidatedRow(raw, e).vacationDays ==
      (if !VacationUsable(raw) then e.vacationDays
       else match FindFirst(raw.ferias.value.rows, VacationKey, Some(e.matricula))
            case Some(v) => v.days
            case None => None)
    ensures forall c :: (ConsolidatedRow(raw, e).Flag(c) ==
      (if FlagIds(raw, c).Some? then e.matricula in FlagIds(raw, c).value else e.Flag(c)))
    ensures ConsolidatedRow(raw, e).isDismissed ==
      (if DismissalUsable(raw) then e.matricula in DismissedIds(raw.desligados.value.rows) else e.isDismissed)
    ensures ConsolidatedRow(raw, e).admissionDate ==
      (if !AdmissionUsable(raw) then e.admissionDate
       else match FindFirst(raw.admissao.value.rows, AdmissionKey, Some(e.matricula))
            case Some(a) => a.admission
            case None => None)
    ensures ConsolidatedRow(raw, e).dailyValue == e.dailyValue
    ensures ConsolidatedRow(raw, e).unionWorkdays == e.unionWorkdays
  {
  }

  // ---------------------------------------------------------------------------
  // _consolidate_employee_data
  // ---------------------------------------------------------------------------

  /** `base_df.merge(ferias_df[[...]].drop_duplicates(subset=['MATRICULA']), how="left")`. */
  function MergeVacation(rows: seq<Employee>, ferias: seq<VacationRow>): (r: seq<Employee>)
    ensures |r| == |rows|
    ensures forall j :: 0 <= j < |r| ==> r[j] == WithVacation(rows[j], FindFirst(ferias, VacationKey, Some(rows[j].matricula)))
  {
    DedupThenMerge(rows, ferias, EmployeeKey, VacationKey, WithVacation);
    LeftMerge(rows, DedupBy(ferias, VacationKey), EmployeeKey, VacationKey, WithVacation)
  }

  function MergeDismissals(rows: seq<Employee>, dismissals: seq<DismissalRow>): (r: seq<Employee>)
    ensures |r| == |rows|
    ensures forall j :: 0 <= j < |r| ==> r[j] == WithDismissal(rows[j], FindFirst(dismissals, DismissalKey, Some(rows[j].matricula)))
  {
    DedupThenMerge(rows, dismissals, EmployeeKey, DismissalKey, WithDismissal);
    LeftMerge(rows, DedupBy(dismissals, DismissalKey), EmployeeKey, DismissalKey, WithDismissal)
  }

  function MergeAdmissions(rows: seq<Employee>, admissions: seq<AdmissionRow>): (r: seq<Employee>)
    ensures |r| == |rows|
    ensures forall j :: 0 <= j < |r| ==> r[j] == WithAdmission(rows[j], FindFirst(admissions, AdmissionKey, Some(rows[j].matricula)))
  {
    DedupThenMerge(rows, admissions, EmployeeKey, AdmissionKey, WithAdmission);
    LeftMerge(rows, DedupBy(admissions, AdmissionKey), EmployeeKey, AdmissionKey, WithAdmission)
  }

  /** `base_df[flag] = base_df['MATRICULA'].isin(ids)`. */
  function SetFlag(rows: seq<Employee>, c: Category, ids: set<int>): (r: seq<Employee>)
    ensures |r| == |rows|
    ensures forall j :: 0 <= j < |r| ==> r[j] == rows[j].WithFlag(c, rows[j].matricula in ids)
  {
    seq(|rows|, j requires 0 <= j < |rows| => rows[j].WithFlag(c, rows[j].matricula in ids))
  }

  /** `base_df['IS_DESLIGADO'] = base_df['MATRICULA'].isin(ids)`. */
  function SetDismissed(rows: seq<Employee>, ids: set<int>): (r: seq<Employee>)
    ensures |r| == |rows|
    ensures forall j :: 0 <= j < |r| ==> r[j] == rows[j].(isDismissed := rows[j].matricula in ids)
  {
    seq(|rows|, j requires 0 <= j < |rows| => rows[j].(isDismissed := rows[j].matricula in ids))
  }

  /** The `FÉRIAS` block: merge `DIAS DE FÉRIAS` when the table is present, non-empty and has both columns. */
  function VacationPhase(raw: RawFiles, rows: seq<Employee>): (r: seq<Employee>)
    ensures |r| == |rows| && forall j :: 0 <= j < |r| ==> r[j] == RowVacation(raw, rows[j])
  {
    if raw.ferias.Some? && |raw.ferias.value.rows| > 0
       && MatriculaColumn in raw.ferias.value.columns && VacationDaysColumn in raw.ferias.value.columns
    then MergeVacation(rows, raw.ferias.value.rows)
    else rows
  }

  /**
   * The `DESLIGADOS` block: merge `DATA_DEMISSAO` when that column exists,
   * then set `IS_DESLIGADO`; a table whose date column is spelt only
   * `DATA DEMISSÃO` raises `KeyError` instead.
   */
  function DismissalPhase(raw: RawFiles, rows: seq<Employee>): (r: Result<seq<Employee>>)
    ensures r.Err? <==> AccentedDismissalOnly(raw)
    ensures r.Err? ==> r.msg == AccentedColumnError
    ensures r.Ok? ==> |r.value| == |rows| && forall j :: 0 <= j < |rows| ==> r.value[j] == RowDismissal(raw, rows[j])
  {
    if raw.desligados.Some? && |raw.desligados.value.rows| > 0 && MatriculaColumn in raw.desligados.value.columns then
      var t := raw.desligados.value;
      if DismissalDateColumn !in t.columns && DismissalDateAccentedColumn in t.columns then Err(AccentedColumnError)
      else
        var dated := if DismissalDateColumn in t.columns then MergeDismissals(rows, t.rows) else rows;
        Ok(SetDismissed(dated, DismissedIds(t.rows)))
    else Ok(rows)
  }

  /** The `ADMISSÃO` block: merge the admission date as `DATA_ADMISSAO`. */
  function AdmissionPhase(raw: RawFiles, rows: seq<Employee>): (r: seq<Employee>)
    ensures |r| == |rows| && forall j :: 0 <= j < |r| ==> r[j] == RowAdmission(raw, rows[j])
  {
    if raw.admissao.Some? && |raw.admissao.value.rows| > 0
       && MatriculaColumn in raw.admissao.value.columns && AdmissionSourceColumn in raw.admissao.value.columns
    then MergeAdmissions(rows, raw.admissao.value.rows)
    else rows
  }

  /** Every row with one more list applied. */
  function MarkRows(raw: RawFiles, rows: seq<Employee>, c: Category): (r: seq<Employee>)
    ensures |r| == |rows| && forall j :: 0 <= j < |r| ==> r[j] == MarkCategory(raw, rows[j], c)
  {
    seq(|rows|, j requires 0 <= j < |rows| => MarkCategory(raw, rows[j], c))
  }

  lemma MarkRowsStep(raw: RawFiles, merged: seq<Employee>, rows: seq<Employee>, i: nat)
    requires i < |Categories| && |rows| == |merged|
    requires forall j :: 0 <= j < |rows| ==> rows[j] == FlagsThrough(raw, merged[j], i)
    ensures forall j :: 0 <= j < |rows| ==> MarkRows(raw, rows, Categories[i])[j] == FlagsThrough(raw, merged[j], i + 1)
  {
    forall j | 0 <= j < |rows| ensures MarkRows(raw, rows, Categories[i])[j] == FlagsThrough(raw, merged[j], i + 1) {
      MarkStep(raw, merged[j], i);
    }
  }

  /**
   * `_consolidate_employee_data`: merges, flags and dates added to the base
   * table; the row count and order never change. A dismissal table whose
   * date column is spelt only `DATA DEMISSÃO` makes it raise.
   */
  method ConsolidateEmployeeData(base: Table, raw: RawFiles) returns (out: Result<Table>)
    ensures out.Err? <==> AccentedDismissalOnly(raw)
    ensures out.Err? ==> out.msg == AccentedColumnError
    ensures out.Ok? ==> |out.value.rows| == |base.rows|
    ensures out.Ok? ==> forall j :: 0 <= j < |base.rows| ==> out.value.rows[j] == ConsolidatedRow(raw, base.rows[j])
    ensures out.Ok? ==> out.value.columns == ConsolidatedColumns(raw, base.columns)
  {
    var rows := VacationPhase(raw, base.rows);
    ghost var merged := rows;
    forall j | 0 <= j < |rows| ensures rows[j] == FlagsThrough(raw, merged[j], 0) {
      FlagsThroughZero(raw, rows[j]);
    }

    var i := 0;
    while i < |Categories|
      invariant 0 <= i <= |Categories|
      invariant |rows| == |merged|
      invariant forall j :: 0 <= j < |rows| ==> rows[j] == FlagsThrough(raw, merged[j], i)
    {
      var c := Categories[i];
      ghost var prev := rows;
      var table := CategoryTable(raw, c);
      if table.Some? && |table.value.rows| > 0 {
        if MatriculaColumn in table.value.columns {
          rows := SetFlag(rows, c, MatriculaIds(table.value.rows));
        } else if CadastroColumn in table.value.columns {
          rows := SetFlag(rows, c, CadastroIds(table.value.rows));
        }
      }
      assert rows == MarkRows(raw, prev, c);
      MarkRowsStep(raw, merged, prev, i);
      i := i + 1;
    }

    ghost var flagged := rows;
    var dismissed := DismissalPhase(raw, rows);
    if dismissed.Err? {
      return Err(dismissed.msg);
    }
    rows := AdmissionPhase(raw, dismissed.value);
    forall j | 0 <= j < |rows| ensures rows[j] == ConsolidatedRow(raw, base.rows[j]) {
      assert flagged[j] == FlagsThrough(raw, RowVacation(raw, base.rows[j]), |Categories|);
    }
    var columns := ConsolidatedColumns(raw, base.columns);
    out := Ok(Table(columns, rows));
  }

  // ---------------------------------------------------------------------------
  // _add_union_values and _add_workdays_by_union
  // ---------------------------------------------------------------------------

  /** The union → value table takes part, and the base has a `Sindicato` column. */
  predicate RatesApply(raw: RawFiles, t: Table) {
    && raw.baseSindicato.Some? && |raw.baseSindicato.value.rows| > 0
    && RateUnionColumn in raw.baseSindicato.value.columns && DailyValueColumn in raw.baseSindicato.value.columns
    && UnionColumn in t.columns
  }

  predicate WorkdaysApply(raw: RawFiles, t: Table) {
    && raw.baseDiasUteis.Some? && |raw.baseDiasUteis.value.rows| > 0
    && RateUnionColumn in raw.baseDiasUteis.value.columns && WorkdaysColumn in raw.baseDiasUteis.value.columns
    && UnionColumn in t.columns
  }

  /** `series.map(mapping).fillna(default)`. */
  function MapOr<V>(m: map<string, V>, key: Option<string>, default: V): V {
    if key.Some? && key.value in m then m[key.value] else default
  }

  /**
   * `_add_union_values`: `VALOR_DIA` is the value of the LAST table row
   * whose union equals the row's `Sindicato` exactly (`dict(zip(...))`), or
   * 35.0 when there is none.
   */
  function AddUnionValues(t: Table, raw: RawFiles): (r: Table)
    ensures |r.rows| == |t.rows|
    ensures !RatesApply(raw, t) ==> r == t
    ensures RatesApply(raw, t) ==> r.columns == t.columns + {DailyValueColumn}
    ensures RatesApply(raw, t) ==> forall j :: 0 <= j < |r.rows| ==>
      r.rows[j] == t.rows[j].(dailyValue := Some(
        if t.rows[j].union.Some? && FindLast(raw.baseSindicato.value.rows, RateUnion, t.rows[j].union.value).Some?
        then FindLast(raw.baseSindicato.value.rows, RateUnion, t.rows[j].union.value).value.value
        else Num(35.0)))
  {
    if !RatesApply(raw, t) then t
    else
      var m := ZipMap(raw.baseSindicato.value.rows, RateUnion, RateValue);
      var rows := raw.baseSindicato.value.rows;
      assert forall k :: (k in m <==> FindLast(rows, RateUnion, k).Some?)
                         && (k in m ==> m[k] == FindLast(rows, RateUnion, k).value.value) by {
        forall k ensures (k in m <==> FindLast(rows, RateUnion, k).Some?)
                         && (k in m ==> m[k] == FindLast(rows, RateUnion, k).value.value) {
          ZipMapLastWins(rows, RateUnion, RateValue, k);
        }
      }
      Table(t.columns + {DailyValueColumn},
            seq(|t.rows|, j requires 0 <= j < |t.rows| =>
              t.rows[j].(dailyValue := Some(MapOr(m, t.rows[j].union, Num(35.0))))))
  }

  /**
   * `_add_workdays_by_union`: `DIAS_UTEIS_SINDICATO` is the day count of the
   * last table row for the row's union, or 22 when there is none.
   */
  function AddWorkdaysByUnion(t: Table, raw: RawFiles): (r: Table)
    ensures |r.rows| == |t.rows|
    ensures !WorkdaysApply(raw, t) ==> r == t
    ensures WorkdaysApply(raw, t) ==> r.columns == t.columns + {UnionWorkdaysColumn}
    ensures WorkdaysApply(raw, t) ==> forall j :: 0 <= j < |r.rows| ==>
      r.rows[j] == t.rows[j].(unionWorkdays := Some(
        if t.rows[j].union.Some? && FindLast(raw.baseDiasUteis.value.rows, WorkdayUnion, t.rows[j].union.value).Some?
        then FindLast(raw.baseDiasUteis.value.rows, WorkdayUnion, t.rows[j].union.value).value.days
        else 22.0))
  {
    if !WorkdaysApply(raw, t) then t
    else
      var m := ZipMap(raw.baseDiasUteis.value.rows, WorkdayUnion, WorkdayDays);
      var rows := raw.baseDiasUteis.value.rows;
      assert forall k :: (k in m <==> FindLast(rows, WorkdayUnion, k).Some?)
                         && (k in m ==> m[k] == FindLast(rows, WorkdayUnion, k).value.days) by {
        forall k ensures (k in m <==> FindLast(rows, WorkdayUnion, k).Some?)
                         && (k in m ==> m[k] == FindLast(rows, WorkdayUnion, k).value.days) {
          ZipMapLastWins(rows, WorkdayUnion, WorkdayDays, k);
        }
      }
      Table(t.columns + {UnionWorkdaysColumn},
            seq(|t.rows|, j requires 0 <= j < |t.rows| =>
              t.rows[j].(unionWorkdays := Some(MapOr(m, t.rows[j].union, 22.0)))))
  }

  // ---------------------------------------------------------------------------
  // ConsolidationAgent.execute
  // ---------------------------------------------------------------------------

  /** The consolidation preconditions hold: files loaded, ATIVOS present, with a MATRICULA column. */
  predicate CanConsolidate(raw: Option<RawFiles>) {
    raw.Some? && !raw.value.IsEmpty() && raw.value.ativos.Some? && MatriculaColumn in raw.value.ativos.value.columns
  }

  /** The `ValueError` raised by the first failing precondition, checked in the order `execute` checks them. */
  function PreconditionError(raw: Option<RawFiles>): string {
    if raw.None? || raw.value.IsEmpty() then "Dados brutos não encontrados no estado"
    else if raw.value.ativos.None? then "Arquivo ATIVOS obrigatório não encontrado"
    else "Coluna MATRICULA não encontrada em ATIVOS"
  }

  /** The deduplicated roster as the base table (`drop_duplicates(subset=['MATRICULA'])`). */
  function BaseRows(roster: Roster): (r: seq<Employee>)
    ensures |r| == |DedupBy(roster.rows, RosterId)|
    ensures forall j :: 0 <= j < |r| ==> r[j] == FromRoster(DedupBy(roster.rows, RosterId)[j])
  {
    var d := DedupBy(roster.rows, RosterId);
    seq(|d|, j requires 0 <= j < |d| => FromRoster(d[j]))
  }

  /** The roster part of each consolidated row. */
  function RosterParts(rows: seq<Employee>): (r: seq<RosterRow>)
    ensures |r| == |rows| && forall j :: 0 <= j < |r| ==> r[j] == rows[j].Roster()
  {
    seq(|rows|, j requires 0 <= j < |rows| => rows[j].Roster())
  }

  /**
   * A table whose roster part is the deduplicated roster has one row per
   * distinct identifier, no identifier twice, and its rows are roster rows
   * in roster order, each the first of its identifier.
   */
  lemma ConsolidatedIdentifiers(rows: seq<Employee>, roster: Roster)
    requires RosterParts(rows) == DedupBy(roster.rows, RosterId)
    ensures |rows| == |KeySet(roster.rows, RosterId)|
    ensures forall j, k :: 0 <= j < k < |rows| ==> rows[j].matricula != rows[k].matricula
    ensures IsSubsequence(RosterParts(rows), roster.rows)
  {
    var d := DedupBy(roster.rows, RosterId);
    DedupCount(roster.rows, RosterId);
    DedupUnique(roster.rows, RosterId);
    DedupFirstOccurrences(roster.rows, RosterId);
    assert UniqueKeys(d, RosterId);
    forall j, k | 0 <= j < k < |rows| ensures rows[j].matricula != rows[k].matricula {
      assert RosterId(d[j]) == rows[j].matricula && RosterId(d[k]) == rows[k].matricula;
    }
  }

  /** The union lookups only add the daily value and the workday count. */
  lemma UnionColumnsKeepRoster(t: Table, raw: RawFiles)
    ensures RosterParts(AddWorkdaysByUnion(AddUnionValues(t, raw), raw).rows) == RosterParts(t.rows)
  {
    var u := AddUnionValues(t, raw);
    var w := AddWorkdaysByUnion(u, raw);
    assert RosterParts(u.rows) == RosterParts(t.rows);
    assert RosterParts(w.rows) == RosterParts(u.rows);
  }

  /**
   * The table `execute` stores: the deduplicated roster, each row
   * consolidated, then the daily value and the workday count of its union.
   */
  function Consolidated(raw: RawFiles): Table
    requires raw.ativos.Some?
  {
    var roster := raw.ativos.value;
    var t := Table(ConsolidatedColumns(raw, roster.columns), ConsolidatedRows(raw, BaseRows(roster)));
    AddWorkdaysByUnion(AddUnionValues(t, raw), raw)
  }

  /** Every row consolidated, in order. */
  function ConsolidatedRows(raw: RawFiles, rows: seq<Employee>): (r: seq<Employee>)
    ensures |r| == |rows| && forall j :: 0 <= j < |r| ==> r[j] == ConsolidatedRow(raw, rows[j])
  {
    seq(|rows|, j requires 0 <= j < |rows| => ConsolidatedRow(raw, rows[j]))
  }

  /**
   * The consolidated table holds the roster deduplicated by MATRICULA: one
   * row per distinct identifier, no identifier twice, in roster order.
   */
  lemma ConsolidatedRoster(raw: RawFiles)
    requires raw.ativos.Some?
    ensures RosterParts(Consolidated(raw).rows) == DedupBy(raw.ativos.value.rows, RosterId)
    ensures |Consolidated(raw).rows| == |KeySet(raw.ativos.value.rows, RosterId)|
    ensures forall j, k :: 0 <= j < k < |Consolidated(raw).rows| ==>
              Consolidated(raw).rows[j].matricula != Consolidated(raw).rows[k].matricula
  {
    var roster := raw.ativos.value;
    var base := BaseRows(roster);
    var t := Table(ConsolidatedColumns(raw, roster.columns), ConsolidatedRows(raw, base));
    forall j | 0 <= j < |t.rows| ensures t.rows[j].Roster() == base[j].Roster() {
      ConsolidatedRowFields(raw, base[j]);
    }
    assert RosterParts(t.rows) == DedupBy(roster.rows, RosterId);
    UnionColumnsKeepRoster(t, raw);
    ConsolidatedIdentifiers(Consolidated(raw).rows, roster);
  }

  /**
   * The merge steps of `execute` once the roster has passed its checks:
   * consolidation, then the two union lookups; the accented-only dismissal
   * column makes them raise.
   */
  method ConsolidateFiles(raw: RawFiles) returns (t: Result<Table>)
    requires raw.ativos.Some?
    ensures t == if AccentedDismissalOnly(raw) then Err(AccentedColumnError) else Ok(Consolidated(raw))
  {
    var roster := raw.ativos.value;
    var base := Table(roster.columns, BaseRows(roster));
    var merged := ConsolidateEmployeeData(base, raw);
    if merged.Err? {
      return Err(merged.msg);
    }
    assert merged.value.rows == ConsolidatedRows(raw, base.rows);
    t := Ok(AddWorkdaysByUnion(AddUnionValues(merged.value, raw), raw));
  }

  /**
   * `ConsolidationAgent.execute`. Without files, without ATIVOS or without
   * its MATRICULA column the stage fails and records a `consolidation`
   * error, and so it does when the dismissal date column is spelt only
   * `DATA DEMISSÃO`. Otherwise it stores the consolidated table and its row
   * count.
   */
  method Execute(st: VRState)
    modifies st
    ensures !CanConsolidate(old(st.rawFiles)) ==>
      && st.errors == old(st.errors) + [StageError("consolidation", PreconditionError(old(st.rawFiles)))]
      && !st.success && st.processingStage == "consolidation_failed"
      && st.consolidated == old(st.consolidated) && st.totalEmployees == old(st.totalEmployees)
    ensures CanConsolidate(old(st.rawFiles)) && AccentedDismissalOnly(old(st.rawFiles).value) ==>
      && st.errors == old(st.errors) + [StageError("consolidation", AccentedColumnError)]
      && !st.success && st.processingStage == "consolidation_failed"
      && st.consolidated == old(st.consolidated) && st.totalEmployees == old(st.totalEmployees)
    ensures CanConsolidate(old(st.rawFiles)) && !AccentedDismissalOnly(old(st.rawFiles).value) ==>
      && st.success && st.processingStage == "consolidation_complete" && st.errors == old(st.errors)
      && st.consolidated == Some(Consolidated(old(st.rawFiles).value))
      && st.totalEmployees == |st.consolidated.value.rows|
    ensures st.Inputs() == old(st.Inputs()) && st.validated == old(st.validated) && st.calculated == old(st.calculated)
    ensures st.ExclusionKeys() == old(st.ExclusionKeys()) && st.DistributionKeys() == old(st.DistributionKeys())
    ensures st.CalculationStats() == old(st.CalculationStats())
  {
    if !CanConsolidate(st.rawFiles) {
      st.RecordError("consolidation", PreconditionError(st.rawFiles));
      return;
    }
    var t := ConsolidateFiles(st.rawFiles.value);
    if t.Err? {
      st.RecordError("consolidation", t.msg);
      return;
    }
    st.consolidated := Some(t.value);
    st.totalEmployees := |t.value.rows|;
    st.processingStage := "consolidation_complete";
    st.success := true;
  }
}
