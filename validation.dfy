/**
 * The validation stage: three passes over the consolidated table. The first
 * removes rows excluded by a flag, a position or a leave status and counts
 * each cause; the second removes dismissals notified up to day 15 and gives
 * every remaining row its calculation regime; the third marks the rows on
 * vacation. The stage then records the eligible count and the
 * distributions by regime, company and union.
 */
module Validation {
  import opened Wrappers
  import opened Text
  import opened Dates
  import opened Tables
  import opened Seqs
  import opened PipelineState
  import Money
  import Config
  import Rules

  // ---------------------------------------------------------------------------
  // _apply_individual_exclusion_rules
  // ---------------------------------------------------------------------------

  /** The exclusion causes, in the order the pass tests them. */
  datatype Cause = InternCause | ApprenticeCause | OnLeaveCause | AbroadCause | PositionCause | StatusCause

  /** The leave statuses this pass excludes (spelled with their accents). */
  const LeaveStatuses: seq<string> := ["LICENÇA MATERNIDADE", "AUXÍLIO DOENÇA", "ATESTADO"]

  /** The statuses that are never an exclusion. */
  const WorkingStatuses: seq<string> := ["TRABALHANDO", "FÉRIAS"]

  /** `str(row.get('TITULO DO CARGO', '')).upper()`. */
  function Cargo(columns: set<string>, e: Employee): string {
    Upper(ColumnText(columns, TitleColumn, e.title))
  }

  /** `str(row.get('DESC. SITUACAO', '')).upper()`. */
  function Situacao(columns: set<string>, e: Employee): string {
    Upper(ColumnText(columns, StatusColumn, e.status))
  }

  /** The three positions the pass tests, each as a substring of the title. */
  const ExcludedTitles: seq<string> := ["DIRETOR", "GERENTE GERAL", "PRESIDENTE"]

  /** Some entry of `subs` occurs in `s` (the chain of `in` tests joined by `or`). */
  predicate ContainsAny(s: string, subs: seq<string>) {
    subs != [] && (Contains(s, subs[0]) || ContainsAny(s, subs[1..]))
  }

  /** `s in [...]` over a list of strings. */
  predicate InList(s: string, list: seq<string>) {
    list != [] && (s == list[0] || InList(s, list[1..]))
  }

  lemma {:induction false} InListIff(s: string, list: seq<string>)
    ensures InList(s, list) <==> s in list
  {
    if list != [] {
      InListIff(s, list[1..]);
      assert list == [list[0]] + list[1..];
    }
  }

  predicate PositionExcluded(cargo: string) {
    ContainsAny(cargo, ExcludedTitles)
  }

  /** The position test is `'DIRETOR' in cargo or 'GERENTE GERAL' in cargo or 'PRESIDENTE' in cargo`. */
  lemma PositionExcludedIff(cargo: string)
    ensures PositionExcluded(cargo) <==>
      (Contains(cargo, "DIRETOR") || Contains(cargo, "GERENTE GERAL") || Contains(cargo, "PRESIDENTE"))
  {
    var rest := ExcludedTitles[1..];
    assert rest == ["GERENTE GERAL", "PRESIDENTE"] && rest[1..] == ["PRESIDENTE"] && rest[1..][1..] == [];
    assert ContainsAny(cargo, rest[1..]) <==> Contains(cargo, "PRESIDENTE");
    assert ContainsAny(cargo, rest) <==> Contains(cargo, "GERENTE GERAL") || Contains(cargo, "PRESIDENTE");
  }

  /**
   * The status test as the pass writes it: a non-empty status that is not a
   * working status and is one of the leave statuses.
   */
  predicate StatusExcludes(situacao: string) {
    situacao != "" && !InList(situacao, WorkingStatuses) && InList(situacao, LeaveStatuses)
  }

  /** The first two guards of the status test never change its outcome: exactly the leave statuses exclude. */
  lemma StatusExcludesIff(situacao: string)
    ensures StatusExcludes(situacao) <==> situacao in LeaveStatuses
  {
    InListIff(situacao, WorkingStatuses);
    InListIff(situacao, LeaveStatuses);
  }

  /** Whether a row has a given exclusion cause. */
  predicate HasCause(columns: set<string>, e: Employee, k: Cause) {
    match k
    case InternCause => e.Flag(Intern)
    case ApprenticeCause => e.Flag(Apprentice)
    case OnLeaveCause => e.Flag(OnLeave)
    case AbroadCause => e.Flag(Abroad)
    case PositionCause => PositionExcluded(Cargo(columns, e))
    case StatusCause => StatusExcludes(Situacao(columns, e))
  }

  /** A row is excluded when it has at least one cause (`motivos` is not empty). */
  predicate Excluded(columns: set<string>, e: Employee) {
    || e.Flag(Intern) || e.Flag(Apprentice) || e.Flag(OnLeave) || e.Flag(Abroad)
    || PositionExcluded(Cargo(columns, e)) || StatusExcludes(Situacao(columns, e))
  }

  /** The final value of the `ELEGIVEL` column. */
  function EligibilityMask(columns: set<string>, rows: seq<Employee>): (m: seq<bool>)
    ensures |m| == |rows| && forall j :: 0 <= j < |m| ==> m[j] == !Excluded(columns, rows[j])
  {
    seq(|rows|, j requires 0 <= j < |rows| => !Excluded(columns, rows[j]))
  }

  /** `df[df['ELEGIVEL'] == True]`. */
  function EligibleRows(columns: set<string>, rows: seq<Employee>): seq<Employee> {
    Select(rows, EligibilityMask(columns, rows))
  }

  /** The number of rows with a given cause: one counter of `exclusion_stats`. */
  function Tally(columns: set<string>, rows: seq<Employee>, k: Cause): (n: nat)
    ensures n <= |rows|
  {
    if rows == [] then 0
    else Tally(columns, rows[..|rows| - 1], k) + (if HasCause(columns, rows[|rows| - 1], k) then 1 else 0)
  }

  /** The number of excluded rows. */
  function ExcludedCount(columns: set<string>, rows: seq<Employee>): (n: nat)
    ensures n <= |rows|
  {
    if rows == [] then 0
    else ExcludedCount(columns, rows[..|rows| - 1]) + (if Excluded(columns, rows[|rows| - 1]) then 1 else 0)
  }

  /** All six counters. */
  function Tallies(columns: set<string>, rows: seq<Employee>): ExclusionStats {
    ExclusionStats(Tally(columns, rows, InternCause), Tally(columns, rows, ApprenticeCause),
                   Tally(columns, rows, OnLeaveCause), Tally(columns, rows, AbroadCause),
                   Tally(columns, rows, PositionCause), Tally(columns, rows, StatusCause))
  }

  function TallySum(s: ExclusionStats): nat {
    s.interns + s.apprentices + s.onLeave + s.abroad + s.directors + s.invalidStatus
  }

  /** The reason texts of one row, in the order the pass appends them. */
  function Motivos(columns: set<string>, e: Employee): (r: seq<string>)
    ensures r == [] <==> !Excluded(columns, e)
  {
    FlagMotivos(e)
    + (if PositionExcluded(Cargo(columns, e)) then ["Cargo excluído"] else [])
    + (if StatusExcludes(Situacao(columns, e)) then ["Situação: " + Situacao(columns, e)] else [])
  }

  lemma TallyAppend(columns: set<string>, rows: seq<Employee>, e: Employee, k: Cause)
    ensures Tally(columns, rows + [e], k) == Tally(columns, rows, k) + (if HasCause(columns, e, k) then 1 else 0)
  {
    assert (rows + [e])[..|rows|] == rows;
  }

  lemma ExcludedCountAppend(columns: set<string>, rows: seq<Employee>, e: Employee)
    ensures ExcludedCount(columns, rows + [e]) == ExcludedCount(columns, rows) + (if Excluded(columns, e) then 1 else 0)
  {
    assert (rows + [e])[..|rows|] == rows;
  }

  /** One row's contribution to the counters. */
  function Bump(s: ExclusionStats, columns: set<string>, e: Employee): ExclusionStats {
    ExclusionStats(
      s.interns + (if HasCause(columns, e, InternCause) then 1 else 0),
      s.apprentices + (if HasCause(columns, e, ApprenticeCause) then 1 else 0),
      s.onLeave + (if HasCause(columns, e, OnLeaveCause) then 1 else 0),
      s.abroad + (if HasCause(columns, e, AbroadCause) then 1 else 0),
      s.directors + (if HasCause(columns, e, PositionCause) then 1 else 0),
      s.invalidStatus + (if HasCause(columns, e, StatusCause) then 1 else 0))
  }

  lemma TalliesStep(columns: set<string>, rows: seq<Employee>, i: nat)
    requires i < |rows|
    ensures Tallies(columns, rows[..i + 1]) == Bump(Tallies(columns, rows[..i]), columns, rows[i])
  {
    assert rows[..i + 1][..i] == rows[..i];
  }

  /** The reasons given by the four flag columns, in the pass's order. */
  function FlagMotivos(e: Employee): seq<string> {
    (if e.Flag(Intern) then ["Estagiário"] else [])
    + (if e.Flag(Apprentice) then ["Aprendiz"] else [])
    + (if e.Flag(OnLeave) then ["Afastado"] else [])
    + (if e.Flag(Abroad) then ["Trabalha no exterior"] else [])
  }

  /** The four flag tests of the row loop. */
  method CheckFlags(row: Employee, stats: ExclusionStats) returns (motivos: seq<string>, after: ExclusionStats)
    ensures motivos == FlagMotivos(row)
    ensures after == stats.(interns := stats.interns + (if row.Flag(Intern) then 1 else 0),
                            apprentices := stats.apprentices + (if row.Flag(Apprentice) then 1 else 0),
                            onLeave := stats.onLeave + (if row.Flag(OnLeave) then 1 else 0),
                            abroad := stats.abroad + (if row.Flag(Abroad) then 1 else 0))
  {
    after := stats;
    motivos := [];
    if row.Flag(Intern) {
      motivos := motivos + ["Estagiário"];
      after := after.(interns := after.interns + 1);
    }
    if row.Flag(Apprentice) {
      motivos := motivos + ["Aprendiz"];
      after := after.(apprentices := after.apprentices + 1);
    }
    if row.Flag(OnLeave) {
      motivos := motivos + ["Afastado"];
      after := after.(onLeave := after.onLeave + 1);
    }
    if row.Flag(Abroad) {
      motivos := motivos + ["Trabalha no exterior"];
      after := after.(abroad := after.abroad + 1);
    }
  }

  /** The position and status tests of the row loop. */
  method CheckTexts(columns: set<string>, row: Employee, stats: ExclusionStats) returns (motivos: seq<string>, after: ExclusionStats)
    ensures motivos == Motivos(columns, row)[|FlagMotivos(row)|..]
    ensures after == stats.(directors := stats.directors + (if PositionExcluded(Cargo(columns, row)) then 1 else 0),
                            invalidStatus := stats.invalidStatus + (if StatusExcludes(Situacao(columns, row)) then 1 else 0))
  {
    after := stats;
    motivos := [];
    var cargo := Upper(ColumnText(columns, TitleColumn, row.title));
    if ContainsAny(cargo, ExcludedTitles) {
      motivos := motivos + ["Cargo excluído"];
      after := after.(directors := after.directors + 1);
    }
    var situacao := Upper(ColumnText(columns, StatusColumn, row.status));
    if situacao != "" && !InList(situacao, WorkingStatuses) {
      if InList(situacao, LeaveStatuses) {
        motivos := motivos + ["Situação: " + situacao];
        after := after.(invalidStatus := after.invalidStatus + 1);
      }
    }
  }

  /**
   * The body of the row loop: collects the row's reasons in the pass's
   * order and bumps the counter of each cause found.
   */
  method CheckRow(columns: set<string>, row: Employee, stats: ExclusionStats) returns (motivos: seq<string>, after: ExclusionStats)
    ensures after == Bump(stats, columns, row)
    ensures motivos == Motivos(columns, row)
  {
    var flagMotivos, textMotivos;
    flagMotivos, after := CheckFlags(row, stats);
    textMotivos, after := CheckTexts(columns, row, after);
    motivos := flagMotivos + textMotivos;
  }

  /**
   * `_apply_individual_exclusion_rules`: marks each row's `ELEGIVEL` (and
   * `MOTIVO_EXCLUSAO`, the reasons joined by "; ") in place, counts every
   * cause of every row (a row with two causes counts in two counters),
   * then keeps the eligible rows in their order.
   */
  method ApplyIndividualExclusionRules(t: Table) returns (eligible: seq<Employee>, excluded: int, stats: ExclusionStats)
    ensures eligible == EligibleRows(t.columns, t.rows)
    ensures excluded == |t.rows| - |eligible|
    ensures stats == Tallies(t.columns, t.rows)
  {
    var rows := t.rows;
    var columns := t.columns;
    var elegivel := seq(|rows|, j => true);
    var motivoExclusao := seq(|rows|, j => "");
    stats := ExclusionStats(0, 0, 0, 0, 0, 0);
    var i := 0;
    while i < |rows|
      invariant 0 <= i <= |rows| && |elegivel| == |rows| && |motivoExclusao| == |rows|
      invariant forall j :: 0 <= j < i ==> elegivel[j] == !Excluded(columns, rows[j])
      invariant forall j :: i <= j < |rows| ==> elegivel[j]
      invariant stats == Tallies(columns, rows[..i])
    {
      var motivos;
      motivos, stats := CheckRow(columns, rows[i], stats);
      if motivos != [] {
        elegivel := elegivel[i := false];
        motivoExclusao := motivoExclusao[i := Join(motivos, "; ")];
      }
      TalliesStep(columns, rows, i);
      i := i + 1;
    }
    assert rows[..|rows|] == rows;
    assert elegivel == EligibilityMask(columns, rows);
    eligible := Select(rows, elegivel);
    excluded := |rows| - |eligible|;
  }

  /**
   * The eligible rows are exactly the rows without a cause, in their
   * original order, and their number is the row count minus the excluded
   * count.
   */
  lemma {:induction false} EligibleRowsMeaning(columns: set<string>, rows: seq<Employee>)
    ensures forall e :: e in EligibleRows(columns, rows) <==> e in rows && !Excluded(columns, e)
    ensures IsSubsequence(EligibleRows(columns, rows), rows)
    ensures |EligibleRows(columns, rows)| == |rows| - ExcludedCount(columns, rows)
  {
    var p := (e: Employee) => !Excluded(columns, e);
    SelectIsFilter(rows, EligibilityMask(columns, rows), p);
    FilterSubsequence(rows, p);
    forall e | e in rows && !Excluded(columns, e) ensures e in EligibleRows(columns, rows) {
      FilterKeeps(rows, p, e);
    }
    FilterLength(rows, p);
    CountNotExcluded(columns, rows, p);
  }

  lemma {:induction false} CountNotExcluded(columns: set<string>, rows: seq<Employee>, p: Employee -> bool)
    requires forall e :: p(e) == !Excluded(columns, e)
    ensures CountWhere(rows, p) == |rows| - ExcludedCount(columns, rows)
  {
    if rows != [] {
      CountNotExcluded(columns, rows[..|rows| - 1], p);
    }
  }

  /**
   * Every counter is at most the number of excluded rows, and the excluded
   * rows are at most the sum of the counters (a row may count several times).
   */
  lemma {:induction false} TalliesBound(columns: set<string>, rows: seq<Employee>, k: Cause)
    ensures Tally(columns, rows, k) <= ExcludedCount(columns, rows) <= TallySum(Tallies(columns, rows))
  {
    if rows != [] {
      TalliesBound(columns, rows[..|rows| - 1], k);
    }
  }

  /**
   * Outside the statuses either list names, the pass and the business-rule
   * check `should_exclude_employee` exclude exactly the same rows.
   */
  lemma ExclusionAgreesWithRules(columns: set<string>, e: Employee)
    requires Situacao(columns, e) !in LeaveStatuses && Situacao(columns, e) !in Rules.ExcludedStatuses
    ensures Excluded(columns, e) <==> Rules.ShouldExcludeEmployee(columns, e).0
  {
    Rules.PositionListsAgree(Cargo(columns, e));
    PositionExcludedIff(Cargo(columns, e));
    StatusExcludesIff(Situacao(columns, e));
    Rules.AllCategories();
  }

  // ---------------------------------------------------------------------------
  // _apply_dismissal_rules
  // ---------------------------------------------------------------------------

  /** The day bound the pass writes out (the same value as `CUTOFF_DAY`). */
  const DismissalCutoff := 15

  /** What the pass makes of one row: `None` when it is removed, else its regime. */
  function DismissalOutcome(e: Employee): Option<Regime> {
    if e.isDismissed && e.dismissalDate.Some? then
      if e.dismissalDate.value.day <= DismissalCutoff then None
      else Some(Proporcional(e.dismissalDate))
    else Some(Integral)
  }

  /** The rows that survive the pass with their regimes, in order. */
  function Assessments(rows: seq<Employee>): (r: seq<Assessed>)
    ensures |r| <= |rows|
  {
    if rows == [] then []
    else
      var last := rows[|rows| - 1];
      Assessments(rows[..|rows| - 1])
      + (match DismissalOutcome(last) case Some(g) => [Assessed(last, g)] case None => [])
  }

  /** `ELEGIVEL_VR` is only created by the row loop: with no rows it never exists. */
  const MissingEligibleColumn := "'ELEGIVEL_VR'"

  /**
   * `_apply_dismissal_rules`: with both dismissal columns present, each row
   * gets `ELEGIVEL_VR` (and, when kept, `TIPO_CALCULO`) in place; without
   * them every row is `INTEGRAL`. Filtering on a column the loop never
   * created fails with `KeyError`.
   */
  method ApplyDismissalRules(columns: set<string>, rows: seq<Employee>) returns (r: Result<seq<Assessed>>)
    ensures DismissedColumn in columns && DismissalDateColumn in columns ==>
      r == if |rows| == 0 then Err(MissingEligibleColumn) else Ok(Assessments(rows))
    ensures !(DismissedColumn in columns && DismissalDateColumn in columns) ==>
      r.Ok? && |r.value| == |rows| && forall j :: 0 <= j < |rows| ==> r.value[j] == Assessed(rows[j], Integral)
  {
    if DismissedColumn in columns && DismissalDateColumn in columns {
      var elegivel := seq(|rows|, j => false);
      var tipo := seq(|rows|, j => Integral);
      var created := false;
      var i := 0;
      while i < |rows|
        invariant 0 <= i <= |rows| && |elegivel| == |rows| && |tipo| == |rows|
        invariant created <==> i > 0
        invariant forall j :: 0 <= j < i ==> elegivel[j] == DismissalOutcome(rows[j]).Some?
        invariant forall j :: 0 <= j < i && elegivel[j] ==> tipo[j] == DismissalOutcome(rows[j]).value
      {
        var row := rows[i];
        if row.isDismissed && row.dismissalDate.Some? {
          var dataDemissao := row.dismissalDate.value;
          if dataDemissao.day <= DismissalCutoff {
            elegivel := elegivel[i := false];
          } else {
            elegivel := elegivel[i := true];
            tipo := tipo[i := Proporcional(Some(dataDemissao))];
          }
        } else {
          elegivel := elegivel[i := true];
          tipo := tipo[i := Integral];
        }
        created := true;
        i := i + 1;
      }
      if !created {
        return Err(MissingEligibleColumn);
      }
      var assessed := seq(|rows|, j requires 0 <= j < |rows| => Assessed(rows[j], tipo[j]));
      SelectAssessments(rows, tipo, elegivel);
      r := Ok(Select(assessed, elegivel));
    } else {
      r := Ok(seq(|rows|, j requires 0 <= j < |rows| => Assessed(rows[j], Integral)));
    }
  }

  /** Selecting the kept rows with their regimes gives the rows the pass keeps. */
  lemma {:induction false} SelectAssessments(rows: seq<Employee>, tipo: seq<Regime>, elegivel: seq<bool>)
    requires |tipo| == |rows| && |elegivel| == |rows|
    requires forall j :: 0 <= j < |rows| ==> elegivel[j] == DismissalOutcome(rows[j]).Some?
    requires forall j :: 0 <= j < |rows| && elegivel[j] ==> tipo[j] == DismissalOutcome(rows[j]).value
    ensures Select(seq(|rows|, j requires 0 <= j < |rows| => Assessed(rows[j], tipo[j])), elegivel) == Assessments(rows)
  {
    if rows != [] {
      var n := |rows| - 1;
      var all := seq(|rows|, j requires 0 <= j < |rows| => Assessed(rows[j], tipo[j]));
      var init := seq(n, j requires 0 <= j < n => Assessed(rows[..n][j], tipo[..n][j]));
      assert all[..n] == init;
      SelectAssessments(rows[..n], tipo[..n], elegivel[..n]);
    }
  }

  /**
   * The pass keeps exactly the rows that are not dismissals notified up to
   * day 15, in order: a kept dismissal with a date is `PROPORCIONAL` up to
   * that date, every other kept row is `INTEGRAL`.
   */
  lemma {:induction false} AssessmentsMeaning(rows: seq<Employee>)
    ensures forall a :: a in Assessments(rows) ==> a.emp in rows && DismissalOutcome(a.emp) == Some(a.regime)
    ensures forall e :: e in rows && DismissalOutcome(e).Some? ==> Assessed(e, DismissalOutcome(e).value) in Assessments(rows)
    ensures forall a :: a in Assessments(rows) ==> !(a.emp.isDismissed && a.emp.dismissalDate.Some? && a.emp.dismissalDate.value.day <= 15)
  {
    if rows != [] {
      var init := rows[..|rows| - 1];
      AssessmentsMeaning(init);
      forall e | e in rows && DismissalOutcome(e).Some? ensures Assessed(e, DismissalOutcome(e).value) in Assessments(rows) {
        if e != rows[|rows| - 1] {
          var k :| 0 <= k < |rows| && rows[k] == e;
          assert init[k] == e;
        }
      }
    }
  }

  /**
   * The pass's day test and `should_exclude_by_dismissal_date` with the
   * configured cutoff agree on every dated dismissal: removed exactly when
   * that rule excludes, `PROPORCIONAL` exactly when it answers so.
   */
  lemma DismissalAgreesWithRules(e: Employee)
    requires e.isDismissed && e.dismissalDate.Some?
    ensures DismissalOutcome(e).None? <==> Rules.ShouldExcludeByDismissalDate(e.dismissalDate.value, Config.CutoffDay).0
    ensures DismissalOutcome(e).Some? ==>
      DismissalOutcome(e).value.Tag() == Rules.ShouldExcludeByDismissalDate(e.dismissalDate.value, Config.CutoffDay).1
  {
  }

  // ---------------------------------------------------------------------------
  // _process_vacation_rules
  // ---------------------------------------------------------------------------

  /** `EM_FERIAS`, `DIAS_FERIAS` and the adjusted `TIPO_CALCULO` of one row. */
  function VacationOutcome(columns: set<string>, a: Assessed): (v: Validated)
    ensures v.emp == a.emp
    ensures v.onVacation <==> VacationDaysColumn in columns && a.emp.vacationDays.Some? && a.emp.vacationDays.value > 0.0
    ensures v.onVacation ==> 0 <= v.vacationDays && v.vacationDays as real <= a.emp.vacationDays.value < v.vacationDays as real + 1.0
    ensures !v.onVacation ==> v.vacationDays == 0
    ensures v.regime == if v.onVacation && a.regime == Integral then Ferias else a.regime
  {
    if VacationDaysColumn in columns && a.emp.vacationDays.Some? && a.emp.vacationDays.value > 0.0 then
      Validated(a.emp, if a.regime == Integral then Ferias else a.regime, true, Money.Trunc(a.emp.vacationDays.value))
    else Validated(a.emp, a.regime, false, 0)
  }

  /**
   * `_process_vacation_rules`: `EM_FERIAS` and `DIAS_FERIAS` start false and
   * zero; with a `DIAS DE FÉRIAS` column, each row with a positive day
   * count is marked, its days truncated, and an `INTEGRAL` regime becomes
   * `FERIAS`.
   */
  method ProcessVacationRules(columns: set<string>, rows: seq<Assessed>) returns (out: seq<Validated>)
    ensures |out| == |rows|
    ensures forall j :: 0 <= j < |out| ==> out[j] == VacationOutcome(columns, rows[j])
  {
    var emFerias := seq(|rows|, j => false);
    var diasFerias := seq(|rows|, j => 0);
    var tipo := seq(|rows|, j requires 0 <= j < |rows| => rows[j].regime);
    if VacationDaysColumn in columns {
      var i := 0;
      while i < |rows|
        invariant 0 <= i <= |rows| && |emFerias| == |rows| && |diasFerias| == |rows| && |tipo| == |rows|
        invariant forall j :: 0 <= j < i ==>
          Validated(rows[j].emp, tipo[j], emFerias[j], diasFerias[j]) == VacationOutcome(columns, rows[j])
        invariant forall j :: i <= j < |rows| ==> !emFerias[j] && diasFerias[j] == 0 && tipo[j] == rows[j].regime
      {
        var dias := rows[i].emp.vacationDays;
        if dias.Some? && dias.value > 0.0 {
          emFerias := emFerias[i := true];
          diasFerias := diasFerias[i := Money.Trunc(dias.value)];
          if tipo[i] == Integral {
            tipo := tipo[i := Ferias];
          }
        }
        i := i + 1;
      }
    }
    out := seq(|rows|, j requires 0 <= j < |rows| => Validated(rows[j].emp, tipo[j], emFerias[j], diasFerias[j]));
  }

  // ---------------------------------------------------------------------------
  // _calculate_validation_stats
  // ---------------------------------------------------------------------------

  /** The counters the stage writes into the state. */
  datatype ValidationStats = ValidationStats(
    eligible: nat,
    onVacation: nat,
    types: map<string, nat>,
    companies: Option<map<string, nat>>,
    unions: Option<map<string, nat>>)

  /** The `TIPO_CALCULO` column: every row's regime tag, never null. */
  function Tags(rows: seq<Validated>): (r: seq<Option<string>>)
    ensures |r| == |rows| && forall j :: 0 <= j < |r| ==> r[j] == Some(rows[j].regime.Tag())
    ensures None !in r
  {
    seq(|rows|, j requires 0 <= j < |rows| => Some(rows[j].regime.Tag()))
  }

  /** The `EMPRESA` column: a company is in it exactly when some row names it. */
  function Companies(rows: seq<Validated>): (r: seq<Option<string>>)
    ensures |r| == |rows| && forall j :: 0 <= j < |r| ==> r[j] == rows[j].emp.company
    ensures forall k :: Some(k) in r <==> exists j :: 0 <= j < |rows| && rows[j].emp.company == Some(k)
  {
    seq(|rows|, j requires 0 <= j < |rows| => rows[j].emp.company)
  }

  /** The `Sindicato` column: a union is in it exactly when some row names it. */
  function Unions(rows: seq<Validated>): (r: seq<Option<string>>)
    ensures |r| == |rows| && forall j :: 0 <= j < |r| ==> r[j] == rows[j].emp.union
    ensures forall k :: Some(k) in r <==> exists j :: 0 <= j < |rows| && rows[j].emp.union == Some(k)
  {
    seq(|rows|, j requires 0 <= j < |rows| => rows[j].emp.union)
  }

  function VacationCount(rows: seq<Validated>): (n: nat)
    ensures n <= |rows|
  {
    if rows == [] then 0 else VacationCount(rows[..|rows| - 1]) + (if rows[|rows| - 1].onVacation then 1 else 0)
  }

  /** Each regime tag present in the rows, with its count. */
  function TypeCounts(rows: seq<Validated>): (m: map<string, nat>)
    ensures forall k :: k in m <==> exists j :: 0 <= j < |rows| && rows[j].regime.Tag() == k
    ensures forall k :: k in m ==> m[k] == Occurrences(Tags(rows), Some(k))
  {
    TagsMeaning(rows);
    ValueCounts(Tags(rows))
  }

  lemma TagsMeaning(rows: seq<Validated>)
    ensures forall k :: Some(k) in Tags(rows) <==> exists j :: 0 <= j < |rows| && rows[j].regime.Tag() == k
  {
    forall k ensures Some(k) in Tags(rows) <==> exists j :: 0 <= j < |rows| && rows[j].regime.Tag() == k {
      if Some(k) in Tags(rows) {
        var j :| 0 <= j < |rows| && Tags(rows)[j] == Some(k);
      }
      if exists j :: 0 <= j < |rows| && rows[j].regime.Tag() == k {
        var j :| 0 <= j < |rows| && rows[j].regime.Tag() == k;
        assert Tags(rows)[j] == Some(k);
      }
    }
  }

  /**
   * `_calculate_validation_stats`: the eligible count, the rows on vacation,
   * the count of each regime tag, and the company and union counts when
   * those columns exist (nulls not counted).
   */
  function CalculateValidationStats(columns: set<string>, rows: seq<Validated>): (s: ValidationStats)
    ensures s.eligible == |rows| && s.onVacation == VacationCount(rows)
    ensures forall k :: k in s.types <==> exists j :: 0 <= j < |rows| && rows[j].regime.Tag() == k
    ensures forall k :: k in s.types ==> s.types[k] == Occurrences(Tags(rows), Some(k))
    ensures s.companies.Some? <==> CompanyColumn in columns
    ensures s.companies.Some? ==> forall k :: k in s.companies.value <==> Some(k) in Companies(rows)
    ensures s.companies.Some? ==> forall k :: k in s.companies.value ==>
              s.companies.value[k] == Occurrences(Companies(rows), Some(k))
    ensures s.unions.Some? <==> UnionColumn in columns
    ensures s.unions.Some? ==> forall k :: k in s.unions.value <==> Some(k) in Unions(rows)
    ensures s.unions.Some? ==> forall k :: k in s.unions.value ==>
              s.unions.value[k] == Occurrences(Unions(rows), Some(k))
  {
    var types := TypeCounts(rows);
    ValidationStats(|rows|, VacationCount(rows), types,
                    if CompanyColumn in columns then Some(ValueCounts(Companies(rows))) else None,
                    if UnionColumn in columns then Some(ValueCounts(Unions(rows))) else None)
  }

  // ---------------------------------------------------------------------------
  // ValidationAgent.execute
  // ---------------------------------------------------------------------------

  const EligibleVrColumn := "ELEGIVEL_VR"
  const OnVacationColumn := "EM_FERIAS"
  const VacationCountColumn := "DIAS_FERIAS"

  /** The columns the three passes add. */
  const ValidationColumns: set<string> := {EligibleVrColumn, RegimeColumn, OnVacationColumn, VacationCountColumn}

  /** `df is None or df.empty`: no rows or no columns. */
  predicate EmptyFrame(t: Table) {
    |t.rows| == 0 || t.columns == {}
  }

  /** The regimes the second pass gives: its own assessment with both dismissal columns, else `INTEGRAL` for every row. */
  function AssessedRows(columns: set<string>, rows: seq<Employee>): (r: seq<Assessed>)
    ensures |r| <= |rows|
  {
    if DismissedColumn in columns && DismissalDateColumn in columns then Assessments(rows)
    else seq(|rows|, j requires 0 <= j < |rows| => Assessed(rows[j], Integral))
  }

  /** The rows of the validated table: the third pass applied to every assessed row. */
  function ValidatedRows(columns: set<string>, rows: seq<Employee>): (r: seq<Validated>)
    ensures |r| == |AssessedRows(columns, rows)|
  {
    var a := AssessedRows(columns, rows);
    seq(|a|, j requires 0 <= j < |a| => VacationOutcome(columns, a[j]))
  }

  /** The second pass fails (the `ELEGIVEL_VR` column is never created) exactly when it sees both columns and no rows. */
  predicate DismissalPassFails(columns: set<string>, rows: seq<Employee>) {
    DismissedColumn in columns && DismissalDateColumn in columns && |rows| == 0
  }

  /** The three passes in order, without touching the state. */
  method RunPasses(t: Table) returns (excluded: int, stats: ExclusionStats, r: Result<seq<Validated>>)
    ensures excluded == |t.rows| - |EligibleRows(t.columns, t.rows)|
    ensures stats == Tallies(t.columns, t.rows)
    ensures DismissalPassFails(t.columns, EligibleRows(t.columns, t.rows)) ==> r == Err(MissingEligibleColumn)
    ensures !DismissalPassFails(t.columns, EligibleRows(t.columns, t.rows)) ==>
      r == Ok(ValidatedRows(t.columns, EligibleRows(t.columns, t.rows)))
  {
    var eligible;
    eligible, excluded, stats := ApplyIndividualExclusionRules(t);
    var assessed := ApplyDismissalRules(t.columns, eligible);
    if assessed.Err? {
      r := Err(assessed.msg);
      return;
    }
    assert assessed.value == AssessedRows(t.columns, eligible);
    var out := ProcessVacationRules(t.columns, assessed.value);
    assert out == ValidatedRows(t.columns, eligible);
    r := Ok(out);
  }

  /** The state holds the statistics `s`; a company or union count not computed leaves the earlier one. */
  ghost predicate StatsStored(st: VRState, s: ValidationStats, companies: Option<map<string, nat>>, unions: Option<map<string, nat>>)
    reads st
  {
    && st.eligibleEmployees == s.eligible && st.employeesOnVacation == s.onVacation
    && st.calculationTypeDistribution == s.types
    && st.companyDistribution == (if s.companies.Some? then s.companies else companies)
    && st.unionDistribution == (if s.unions.Some? then s.unions else unions)
  }

  /** Stores the statistics of the validated rows (the company and union counts only when computed). */
  method StoreStats(st: VRState, s: ValidationStats)
    modifies st
    ensures st.eligibleEmployees == s.eligible && st.employeesOnVacation == s.onVacation
    ensures st.calculationTypeDistribution == s.types
    ensures st.companyDistribution == (if s.companies.Some? then s.companies else old(st.companyDistribution))
    ensures st.unionDistribution == (if s.unions.Some? then s.unions else old(st.unionDistribution))
    ensures st.errors == old(st.errors) && st.success == old(st.success) && st.processingStage == old(st.processingStage)
    ensures st.rawFiles == old(st.rawFiles) && st.consolidated == old(st.consolidated) && st.validated == old(st.validated)
    ensures st.Inputs() == old(st.Inputs()) && st.ConsolidationKeys() == old(st.ConsolidationKeys())
    ensures st.ExclusionKeys() == old(st.ExclusionKeys())
    ensures st.calculated == old(st.calculated) && st.CalculationStats() == old(st.CalculationStats())
  {
    st.eligibleEmployees := s.eligible;
    st.employeesOnVacation := s.onVacation;
    st.calculationTypeDistribution := s.types;
    if s.companies.Some? {
      st.companyDistribution := s.companies;
    }
    if s.unions.Some? {
      st.unionDistribution := s.unions;
    }
  }

  /** Stores a successful validation: the table with its four new columns, its statistics, the stage and `success`. */
  method StoreValidated(st: VRState, columns: set<string>, out: seq<Validated>, s: ValidationStats)
    modifies st
    ensures st.success && st.processingStage == "validation_complete" && st.errors == old(st.errors)
    ensures st.validated == Some(ValidatedTable(columns + ValidationColumns, out))
    ensures st.eligibleEmployees == s.eligible && st.employeesOnVacation == s.onVacation
    ensures st.calculationTypeDistribution == s.types
    ensures st.companyDistribution == (if s.companies.Some? then s.companies else old(st.companyDistribution))
    ensures st.unionDistribution == (if s.unions.Some? then s.unions else old(st.unionDistribution))
    ensures st.Inputs() == old(st.Inputs()) && st.ConsolidationKeys() == old(st.ConsolidationKeys())
    ensures st.ExclusionKeys() == old(st.ExclusionKeys())
    ensures st.calculated == old(st.calculated) && st.CalculationStats() == old(st.CalculationStats())
  {
    StoreStats(st, s);
    st.validated := Some(ValidatedTable(columns + ValidationColumns, out));
    st.processingStage := "validation_complete";
    st.success := true;
  }

  /** The body of `execute` once the consolidated table has passed its three checks. */
  method ValidateTable(st: VRState, t: Table)
    modifies st
    ensures var eligible := EligibleRows(t.columns, t.rows);
      && st.excludedEmployees == |t.rows| - |eligible|
      && st.exclusionStats == Some(Tallies(t.columns, t.rows))
      && (DismissalPassFails(t.columns, eligible) ==>
            st.errors == old(st.errors) + [StageError("validation", MissingEligibleColumn)]
            && !st.success && st.processingStage == "validation_failed" && st.validated == old(st.validated)
            && st.DistributionKeys() == old(st.DistributionKeys()))
      && (!DismissalPassFails(t.columns, eligible) ==>
            var out := ValidatedRows(t.columns, eligible);
            && st.success && st.processingStage == "validation_complete" && st.errors == old(st.errors)
            && st.validated == Some(ValidatedTable(t.columns + ValidationColumns, out))
            && StatsStored(st, CalculateValidationStats(t.columns, out), old(st.companyDistribution), old(st.unionDistribution)))
    ensures st.Inputs() == old(st.Inputs()) && st.ConsolidationKeys() == old(st.ConsolidationKeys())
    ensures st.calculated == old(st.calculated) && st.CalculationStats() == old(st.CalculationStats())
  {
    var excluded, stats, r := RunPasses(t);
    st.excludedEmployees := excluded;
    st.exclusionStats := Some(stats);
    if r.Err? {
      st.RecordError("validation", r.msg);
    } else {
      var s := CalculateValidationStats(t.columns, r.value);
      StoreValidated(st, t.columns, r.value, s);
    }
  }

  /**
   * `ValidationAgent.execute`. It fails without a consolidated table, with
   * an empty one, or without `MATRICULA`; otherwise the first pass's
   * counts are stored; if the second pass fails its error is recorded
   * (those counts stay stored); otherwise the validated table and its
   * statistics are stored.
   */
  method Execute(st: VRState)
    modifies st
    ensures old(st.consolidated).None? ==>
      st.errors == old(st.errors) + [StageError("validation", "DataFrame consolidado não encontrado no estado")]
      && !st.success && st.processingStage == "validation_failed" && st.validated == old(st.validated)
      && st.ExclusionKeys() == old(st.ExclusionKeys()) && st.DistributionKeys() == old(st.DistributionKeys())
    ensures old(st.consolidated).Some? && EmptyFrame(old(st.consolidated).value) ==>
      st.errors == old(st.errors) + [StageError("validation", "DataFrame consolidado está vazio ou inválido")]
      && !st.success && st.processingStage == "validation_failed" && st.validated == old(st.validated)
      && st.ExclusionKeys() == old(st.ExclusionKeys()) && st.DistributionKeys() == old(st.DistributionKeys())
    ensures old(st.consolidated).Some? && !EmptyFrame(old(st.consolidated).value)
            && MatriculaColumn !in old(st.consolidated).value.columns ==>
      st.errors == old(st.errors) + [StageError("validation", "Coluna MATRICULA é obrigatória")]
      && !st.success && st.processingStage == "validation_failed" && st.validated == old(st.validated)
      && st.ExclusionKeys() == old(st.ExclusionKeys()) && st.DistributionKeys() == old(st.DistributionKeys())
    ensures old(st.consolidated).Some? && !EmptyFrame(old(st.consolidated).value)
            && MatriculaColumn in old(st.consolidated).value.columns ==>
      var t := old(st.consolidated).value;
      var eligible := EligibleRows(t.columns, t.rows);
      && st.excludedEmployees == |t.rows| - |eligible|
      && st.exclusionStats == Some(Tallies(t.columns, t.rows))
      && (DismissalPassFails(t.columns, eligible) ==>
            st.errors == old(st.errors) + [StageError("validation", MissingEligibleColumn)]
            && !st.success && st.processingStage == "validation_failed" && st.validated == old(st.validated)
            && st.DistributionKeys() == old(st.DistributionKeys()))
      && (!DismissalPassFails(t.columns, eligible) ==>
            var out := ValidatedRows(t.columns, eligible);
            && st.success && st.processingStage == "validation_complete" && st.errors == old(st.errors)
            && st.validated == Some(ValidatedTable(t.columns + ValidationColumns, out))
            && StatsStored(st, CalculateValidationStats(t.columns, out), old(st.companyDistribution), old(st.unionDistribution)))
    ensures st.Inputs() == old(st.Inputs()) && st.ConsolidationKeys() == old(st.ConsolidationKeys())
    ensures st.calculated == old(st.calculated) && st.CalculationStats() == old(st.CalculationStats())
  {
    if st.consolidated.None? {
      st.RecordError("validation", "DataFrame consolidado não encontrado no estado");
      return;
    }
    var t := st.consolidated.value;
    if |t.rows| == 0 || t.columns == {} {
      st.RecordError("validation", "DataFrame consolidado está vazio ou inválido");
      return;
    }
    if MatriculaColumn !in t.columns {
      st.RecordError("validation", "Coluna MATRICULA é obrigatória");
      return;
    }
    ValidateTable(st, t);
  }
}
