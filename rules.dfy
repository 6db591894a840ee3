/**
 * The business-rule helpers of `VRBusinessRules`: the short-circuit
 * exclusion check, the dismissal and vacation helpers, the benefit split,
 * the calendar workday counter, the union lookups with their ordered
 * fallbacks, the vacation-period test and the cutoff date.
 */
module Rules {
  import opened Wrappers
  import opened Text
  import opened Dates
  import opened Tables
  import opened Seqs
  import Config
  import Money

  // ---------------------------------------------------------------------------
  // should_exclude_employee
  // ---------------------------------------------------------------------------

  /** The first entry of `positions` that occurs in `title`. */
  function FirstContained(title: string, positions: seq<string>): (r: Option<string>)
    ensures r.Some? ==> r.value in positions && Contains(title, r.value)
    ensures r.Some? ==> exists k :: 0 <= k < |positions| && positions[k] == r.value &&
                          forall j :: 0 <= j < k ==> !Contains(title, positions[j])
    ensures r.None? <==> forall p :: p in positions ==> !Contains(title, p)
  {
    if positions == [] then None
    else if Contains(title, positions[0]) then Some(positions[0])
    else FirstContained(title, positions[1..])
  }

  /** Some configured excluded position occurs in the (upper-cased) title. */
  predicate PositionExcluded(title: string) {
    FirstContained(title, Config.ExcludedPositions).Some?
  }

  lemma AllCategories()
    ensures forall c :: c in Categories
  {
    forall c: Category
      ensures c in Categories
    {
      match c
      case Intern => assert Categories[0] == c;
      case Apprentice => assert Categories[1] == c;
      case OnLeave => assert Categories[2] == c;
      case Abroad => assert Categories[3] == c;
    }
  }

  /** The reason text each exclusion flag reports. */
  function FlagReason(c: Category): string {
    match c
    case Intern => "Estagiario"
    case Apprentice => "Aprendiz"
    case OnLeave => "Afastado (Licenca/Auxilio Doenca)"
    case Abroad => "Trabalha no exterior"
  }

  /** The first category, in the order the rule checks them, whose flag is set. */
  function FirstFlag(e: Employee, cats: seq<Category>): (r: Option<Category>)
    ensures r.Some? ==> r.value in cats && e.Flag(r.value)
    ensures r.Some? ==> exists k :: 0 <= k < |cats| && cats[k] == r.value &&
                          forall j :: 0 <= j < k ==> !e.Flag(cats[j])
    ensures r.None? <==> forall c :: c in cats ==> !e.Flag(c)
  {
    if cats == [] then None
    else if e.Flag(cats[0]) then Some(cats[0])
    else FirstFlag(e, cats[1..])
  }

  /** The statuses the rule excludes, compared after upper-casing. */
  const ExcludedStatuses: seq<string> := ["LICENCA MATERNIDADE", "AUXILIO DOENCA", "ATESTADO", "AFASTADO"]

  /** `employee_data.get('MATRICULA', 'N/A')` rendered in a message. */
  function MatriculaText(columns: set<string>, e: Employee): string {
    if MatriculaColumn in columns then IntToString(e.matricula) else "N/A"
  }

  /**
   * `should_exclude_employee`: the position check first, then the four flags
   * in order, then the status; only the first reason found is reported.
   */
  function ShouldExcludeEmployee(columns: set<string>, e: Employee): (r: (bool, string))
    ensures r.0 <==> (|| PositionExcluded(Upper(ColumnText(columns, TitleColumn, e.title)))
                      || (exists c :: e.Flag(c))
                      || Upper(ColumnText(columns, StatusColumn, e.status)) in ExcludedStatuses)
    ensures !r.0 ==> r.1 == ""
    ensures PositionExcluded(Upper(ColumnText(columns, TitleColumn, e.title))) ==>
              r.1 == "Cargo excluido: " + Upper(ColumnText(columns, TitleColumn, e.title))
    ensures !PositionExcluded(Upper(ColumnText(columns, TitleColumn, e.title))) && e.Flag(Intern) ==>
              r.1 == "Estagiario (MATRICULA: " + MatriculaText(columns, e) + ")"
    ensures forall c :: !PositionExcluded(Upper(ColumnText(columns, TitleColumn, e.title))) &&
                        FirstFlag(e, Categories) == Some(c) ==>
              r.1 == FlagReason(c) + " (MATRICULA: " + MatriculaText(columns, e) + ")"
    ensures !PositionExcluded(Upper(ColumnText(columns, TitleColumn, e.title))) && (forall c :: !e.Flag(c)) &&
            Upper(ColumnText(columns, StatusColumn, e.status)) in ExcludedStatuses ==>
              r.1 == "Situacao excluida: " + Upper(ColumnText(columns, StatusColumn, e.status))
  {
    var cargo := Upper(ColumnText(columns, TitleColumn, e.title));
    var situacao := Upper(ColumnText(columns, StatusColumn, e.status));
    var flag := FirstFlag(e, Categories);
    AllCategories();
    if PositionExcluded(cargo) then (true, "Cargo excluido: " + cargo)
    else if flag.Some? then (true, FlagReason(flag.value) + " (MATRICULA: " + MatriculaText(columns, e) + ")")
    else if situacao in ExcludedStatuses then (true, "Situacao excluida: " + situacao)
    else (false, "")
  }

  /**
   * The configured position list and the three positions the validation
   * stage tests inline exclude exactly the same titles, because
   * `VICE-PRESIDENTE` contains `PRESIDENTE`.
   */
  lemma PositionListsAgree(title: string)
    ensures PositionExcluded(title) <==>
      (Contains(title, "DIRETOR") || Contains(title, "GERENTE GERAL") || Contains(title, "PRESIDENTE"))
  {
    var vp := "VICE-PRESIDENTE";
    assert Contains(vp, "PRESIDENTE") by {
      assert OccursAt(vp, "PRESIDENTE", 5);
    }
    if Contains(title, vp) {
      ContainsTransitive(title, vp, "PRESIDENTE");
    }
    var r := FirstContained(title, Config.ExcludedPositions);
    if r.None? {
      assert !Contains(title, Config.ExcludedPositions[0]);
      assert !Contains(title, Config.ExcludedPositions[1]);
      assert !Contains(title, Config.ExcludedPositions[2]);
    }
  }

  // ---------------------------------------------------------------------------
  // Dismissal, vacation and benefit helpers
  // ---------------------------------------------------------------------------

  /** `should_exclude_by_dismissal_date`: dismissals notified up to the cutoff day are not paid. */
  function ShouldExcludeByDismissalDate(dismissal: Date, cutoffDay: int): (r: (bool, string))
    ensures r.0 <==> dismissal.day <= cutoffDay
    ensures !r.0 ==> r.1 == "PROPORCIONAL"
    ensures r.0 ==> EndsWith(r.1, IntToString(cutoffDay))
  {
    if dismissal.day <= cutoffDay then (true, "Demissao comunicada ate dia " + IntToString(cutoffDay))
    else (false, "PROPORCIONAL")
  }

  /** `calculate_vacation_adjustment`: vacation days come off the base, never below zero. */
  function CalculateVacationAdjustment(baseDays: int, vacationDays: int): (r: int)
    ensures r >= 0 && r >= baseDays - vacationDays
    ensures r == 0 || r == baseDays - vacationDays
    ensures vacationDays >= 0 && baseDays >= 0 ==> r <= baseDays
  {
    if baseDays - vacationDays > 0 then baseDays - vacationDays else 0
  }

  /** The dictionary `calculate_benefit_values` returns. */
  datatype BenefitValues = BenefitValues(dailyValue: real, workdays: int, total: real, company: real, employee: real)

  /** `calculate_benefit_values`: the total and its 80% / 20% split, echoing the inputs. */
  function CalculateBenefitValues(dailyValue: real, workdays: int): (r: BenefitValues)
    ensures r.dailyValue == dailyValue && r.workdays == workdays
    ensures r.total == dailyValue * workdays as real
    ensures r.company + r.employee == r.total
    ensures r.company == 4.0 * r.employee
  {
    var total := dailyValue * workdays as real;
    BenefitValues(dailyValue, workdays, total, total * Config.CompanyPercentage, total * Config.EmployeePercentage)
  }

  // ---------------------------------------------------------------------------
  // _calculate_workdays_dynamic
  // ---------------------------------------------------------------------------

  /** The fixed national holidays, as (month, day). */
  const Holidays: set<(int, int)> :=
    {(1, 1), (4, 21), (5, 1), (9, 7), (10, 12), (11, 2), (11, 15), (12, 25)}

  /** Monday to Friday and not a fixed holiday. */
  predicate IsWorkday(d: Date)
    requires Valid(d)
  {
    Weekday(d) < 5 && (d.month, d.day) !in Holidays
  }

  /** The number of workdays among days 1..n of the month. */
  function WorkdaysThrough(year: int, month: int, n: int): (r: nat)
    requires 1 <= year <= 9999 && 1 <= month <= 12 && 0 <= n <= DaysInMonth(year, month)
    ensures r <= n
  {
    if n == 0 then 0
    else WorkdaysThrough(year, month, n - 1) + (if IsWorkday(Date(year, month, n)) then 1 else 0)
  }

  /**
   * `_calculate_workdays_dynamic`: walk the month day by day and count the
   * workdays. `date(...)` raises for an out-of-range year or month.
   */
  method CalculateWorkdaysDynamic(month: int, year: int) returns (r: Result<int>)
    ensures !(1 <= year <= 9999) ==> r == Err("year " + IntToString(year) + " is out of range")
    ensures 1 <= year <= 9999 && !(1 <= month <= 12) ==> r == Err("month must be in 1..12")
    ensures year == 9999 && month == 12 ==> r == Err("year 10000 is out of range")
    ensures 1 <= year <= 9999 && 1 <= month <= 12 && !(year == 9999 && month == 12) ==>
              r == Ok(WorkdaysThrough(year, month, DaysInMonth(year, month)))
  {
    if !(1 <= year <= 9999) {
      return Err("year " + IntToString(year) + " is out of range");
    }
    if !(1 <= month <= 12) {
      return Err("month must be in 1..12");
    }
    var startDate := Date(year, month, 1);
    var endDate: Date;
    if month == 12 {
      if year == 9999 {
        return Err("year 10000 is out of range");
      }
      endDate := Date(year + 1, 1, 1);
    } else {
      endDate := Date(year, month + 1, 1);
    }
    var lastDay := DaysInMonth(year, month);
    var workdays := 0;
    var current := startDate;
    ghost var k := 1;
    while Before(current, endDate)
      invariant 1 <= k <= lastDay + 1
      invariant current == (if k <= lastDay then Date(year, month, k) else endDate)
      invariant workdays == WorkdaysThrough(year, month, k - 1)
      decreases lastDay + 1 - k
    {
      var isHoliday := (current.month, current.day) in Holidays;
      if Weekday(current) < 5 && !isHoliday {
        workdays := workdays + 1;
      }
      current := NextDay(current);
      k := k + 1;
    }
    return Ok(workdays);
  }

  // ---------------------------------------------------------------------------
  // Union lookups
  // ---------------------------------------------------------------------------

  /**
   * The first row whose union contains `name`, ignoring case
   * (`str.contains(name, case=False)`); both union tables are searched this way.
   */
  function PartialMatch<R>(rows: seq<R>, union: R -> string, name: string): (r: Option<R>)
    ensures r.Some? ==> r.value in rows && Contains(Upper(union(r.value)), Upper(name))
    ensures r.Some? ==> exists k :: 0 <= k < |rows| && rows[k] == r.value &&
                          forall j :: 0 <= j < k ==> !Contains(Upper(union(rows[j])), Upper(name))
    ensures r.None? <==> forall w :: w in rows ==> !Contains(Upper(union(w)), Upper(name))
  {
    if rows == [] then None
    else if Contains(Upper(union(rows[0])), Upper(name)) then Some(rows[0])
    else PartialMatch(rows[1..], union, name)
  }

  /**
   * An exact match is also a partial match: a union found exactly never
   * reaches the regional codes or the default rate.
   */
  lemma ExactMatchIsPartial<R>(rows: seq<R>, union: R -> string, name: string)
    requires HasKey(rows, union, name)
    ensures PartialMatch(rows, union, name).Some?
  {
    var j :| 0 <= j < |rows| && union(rows[j]) == name;
    assert Contains(Upper(union(rows[j])), Upper(name)) by {
      assert OccursAt(Upper(union(rows[j])), Upper(name), 0);
    }
    assert rows[j] in rows;
  }

  /** The table can be searched: present, not empty, with both columns. */
  predicate UsableWorkdays(t: Option<WorkdayTable>) {
    t.Some? && |t.value.rows| > 0 && RateUnionColumn in t.value.columns && WorkdaysColumn in t.value.columns
  }

  /** The regional codes, checked in order, then `DEFAULT_WORKDAYS`. */
  function RegionalWorkdays(name: string): (r: int)
    ensures r == 21 || r == 22
    ensures Contains(Upper(name), "SP") ==> r == 22
    ensures r == 21 <==>
              (!Contains(Upper(name), "SP") &&
               (Contains(Upper(name), "RS") || (!Contains(Upper(name), "PR") && Contains(Upper(name), "RJ"))))
  {
    var u := Upper(name);
    if Contains(u, "SP") then 22
    else if Contains(u, "RS") then 21
    else if Contains(u, "PR") then 22
    else if Contains(u, "RJ") then 21
    else Config.DefaultWorkdays
  }

  /** `get_workdays_by_union`: exact table match, then partial match, then region, then the default. */
  function GetWorkdaysByUnion(name: string, table: Option<WorkdayTable>): (r: int)
    ensures UsableWorkdays(table) && HasKey(table.value.rows, WorkdayUnion, name) ==>
              r == Money.Trunc(FindFirst(table.value.rows, WorkdayUnion, name).value.days)
    ensures UsableWorkdays(table) && !HasKey(table.value.rows, WorkdayUnion, name) &&
            PartialMatch(table.value.rows, WorkdayUnion, name).Some? ==>
              r == Money.Trunc(PartialMatch(table.value.rows, WorkdayUnion, name).value.days)
    ensures !UsableWorkdays(table) || PartialMatch(table.value.rows, WorkdayUnion, name).None? ==>
              r == RegionalWorkdays(name)
  {
    if UsableWorkdays(table) && FindFirst(table.value.rows, WorkdayUnion, name).Some? then
      ExactMatchIsPartial(table.value.rows, WorkdayUnion, name);
      Money.Trunc(FindFirst(table.value.rows, WorkdayUnion, name).value.days)
    else if UsableWorkdays(table) && PartialMatch(table.value.rows, WorkdayUnion, name).Some? then
      Money.Trunc(PartialMatch(table.value.rows, WorkdayUnion, name).value.days)
    else RegionalWorkdays(name)
  }

  /** The fixed union → daily value map, in its iteration order. */
  const FixedRates: seq<(string, real)> :=
    [("SINDPD SP", 37.5), ("SINDPPD RS", 35.0), ("SITEPD PR", 35.0), ("SINDPD RJ", 35.0)]

  /** The value of the first fixed-map key occurring in `name`. */
  function FixedRate(name: string, rates: seq<(string, real)>): (r: Option<real>)
    ensures r.Some? ==> exists k :: 0 <= k < |rates| && Contains(name, rates[k].0) && r.value == rates[k].1 &&
                          forall j :: 0 <= j < k ==> !Contains(name, rates[j].0)
    ensures r.None? <==> forall k :: 0 <= k < |rates| ==> !Contains(name, rates[k].0)
  {
    if rates == [] then None
    else if Contains(name, rates[0].0) then Some(rates[0].1)
    else
      var r := FixedRate(name, rates[1..]);
      assert forall k :: 1 <= k < |rates| ==> rates[k] == rates[1..][k - 1];
      r
  }

  /** Every fixed rate is at least 35.0. */
  lemma FixedRateAtLeastDefault(name: string)
    ensures FixedRate(name, FixedRates).Some? ==> FixedRate(name, FixedRates).value >= Config.DefaultDailyValue
  {
  }

  /** `float(cell)`: text must spell a decimal number, otherwise `ValueError`. */
  function CellToFloat(c: Cell): (r: Result<real>)
    ensures c.Num? ==> r == Ok(c.x)
  {
    match c
    case Num(x) => Ok(x)
    case Text(s) =>
      match ParseDecimal(s)
      case Some(v) => Ok(v)
      case None => Err("could not convert string to float: '" + s + "'")
  }

  /**
   * `float()` reads back an amount printed with `:.2f`: the amount rounded
   * to the cent, half to even, symmetric about zero.
   */
  lemma FormattedAmountReadsBack(x: real)
    ensures CellToFloat(Text(Money.FormatFixed2(x))) == Ok(if x >= 0.0 then Money.Round2(x) else -Money.Round2(-x))
  {
    if x >= 0.0 {
      Money.FormatParseRoundTrip(x);
    } else {
      Money.NegativeFormatParse(x);
    }
  }

  predicate UsableRates(t: Option<RateTable>) {
    t.Some? && |t.value.rows| > 0 && RateUnionColumn in t.value.columns && DailyValueColumn in t.value.columns
  }

  /**
   * `get_daily_value_by_union`: the fixed map on the upper-cased name comes
   * first, then an exact and a partial table match, then `DEFAULT_DAILY_VALUE`.
   */
  function GetDailyValueByUnion(name: string, table: Option<RateTable>): (r: Result<real>)
    ensures FixedRate(Upper(name), FixedRates).Some? ==> r == Ok(FixedRate(Upper(name), FixedRates).value)
    ensures FixedRate(Upper(name), FixedRates).None? && UsableRates(table) && HasKey(table.value.rows, RateUnion, name) ==>
              r == CellToFloat(FindFirst(table.value.rows, RateUnion, name).value.value)
    ensures FixedRate(Upper(name), FixedRates).None? && UsableRates(table) && !HasKey(table.value.rows, RateUnion, name) &&
            PartialMatch(table.value.rows, RateUnion, name).Some? ==>
              r == CellToFloat(PartialMatch(table.value.rows, RateUnion, name).value.value)
    ensures FixedRate(Upper(name), FixedRates).None? && (!UsableRates(table) || PartialMatch(table.value.rows, RateUnion, name).None?) ==>
              r == Ok(Config.DefaultDailyValue)
    ensures r.Err? ==> exists w :: w in table.value.rows && w.value.Text?
  {
    var fixed := FixedRate(Upper(name), FixedRates);
    if fixed.Some? then Ok(fixed.value)
    else if UsableRates(table) && FindFirst(table.value.rows, RateUnion, name).Some? then
      ExactMatchIsPartial(table.value.rows, RateUnion, name);
      CellToFloat(FindFirst(table.value.rows, RateUnion, name).value.value)
    else if UsableRates(table) && PartialMatch(table.value.rows, RateUnion, name).Some? then
      CellToFloat(PartialMatch(table.value.rows, RateUnion, name).value.value)
    else Ok(Config.DefaultDailyValue)
  }

  // ---------------------------------------------------------------------------
  // is_on_vacation and get_cutoff_date
  // ---------------------------------------------------------------------------

  /**
   * A vacation start or end cell: missing, a plain `date`, a pandas
   * `Timestamp` (which cannot be compared with a `date`), text, or any other value.
   */
  datatype VacationCell = Missing | PlainDate(d: Date) | Timestamp(t: Date) | TextCell(s: string) | OtherValue

  /** The `date` a cell compares as, or `None` where comparing or parsing raises. */
  function ComparableDate(c: VacationCell): (r: Option<Date>)
    ensures c.PlainDate? ==> r == Some(c.d)
    ensures c.Missing? || c.Timestamp? || c.OtherValue? ==> r.None?
  {
    match c
    case PlainDate(d) => Some(d)
    case TextCell(s) => ParseDayMonthYear(s)
    case _ => None
  }

  /** `is_on_vacation`: start <= cutoff <= end; any parsing or comparison error gives false. */
  function IsOnVacation(start: VacationCell, end: VacationCell, cutoff: Date): (r: bool)
    ensures r <==> && ComparableDate(start).Some? && ComparableDate(end).Some?
                   && NotAfter(ComparableDate(start).value, cutoff) && NotAfter(cutoff, ComparableDate(end).value)
    ensures start.Timestamp? || end.Timestamp? ==> !r
  {
    match (ComparableDate(start), ComparableDate(end))
    case (Some(a), Some(b)) => NotAfter(a, cutoff) && NotAfter(cutoff, b)
    case _ => false
  }

  /** Dates written as `dd/mm/yyyy` text are compared as the dates they spell. */
  lemma IsOnVacationText(a: Date, b: Date, cutoff: Date)
    requires Valid(a) && Valid(b) && a.year >= 1000 && b.year >= 1000
    ensures IsOnVacation(TextCell(Format(a)), TextCell(Format(b)), cutoff) <==>
              NotAfter(a, cutoff) && NotAfter(cutoff, b)
  {
    ParseFormatRoundTrip(a);
    ParseFormatRoundTrip(b);
  }

  /**
   * `get_cutoff_date`: day `CUTOFF_DAY` of the `MM/YYYY` month; `None`
   * stands for the error branch, which falls back to the current date.
   */
  function GetCutoffDate(monthYear: string): (r: Option<Date>)
    ensures r.Some? ==> Valid(r.value) && r.value.day == Config.CutoffDay
  {
    var parts := Split(monthYear, '/');
    if |parts| != 2 then None
    else
      match (ParseInt(parts[0]), ParseInt(parts[1]))
      case (Some(month), Some(year)) =>
        var d := Date(year, month, Config.CutoffDay);
        if Valid(d) then Some(d) else None
      case _ => None
  }

  /** The cutoff date of a month written as `MM/YYYY` is the 15th of that month. */
  lemma CutoffDateRoundTrip(month: int, year: int)
    requires 1 <= month <= 12 && 1 <= year <= 9999
    ensures GetCutoffDate(Pad2(month) + "/" + IntToString(year)) == Some(Date(year, month, Config.CutoffDay))
  {
    var mm, yyyy := Pad2(month), IntToString(year);
    assert yyyy == NatToString(year);
    DigitsHaveNoSlash(mm);
    DigitsHaveNoSlash(yyyy);
    assert mm + "/" + yyyy == mm + ['/'] + yyyy;
    SplitAt(mm, yyyy, '/');
    assert Split(yyyy, '/') == [yyyy];
    assert Split(mm + "/" + yyyy, '/') == [mm, yyyy];
    ParsePad2RoundTrip(month);
    ParseIntRoundTrip(year);
    assert DaysInMonth(year, month) >= Config.CutoffDay;
  }
}
