/**
 * The tables the pipeline passes from stage to stage. Each table is a
 * sequence of row records together with the set of its column names, since
 * several rules depend on whether a column exists at all. Optional cells are
 * `Option` fields: `None` is a null cell (NaN) or, where the column is
 * absent, a missing one.
 */
module Tables {
  import opened Wrappers
  import opened Dates

  // ---------------------------------------------------------------------------
  // Column names
  // ---------------------------------------------------------------------------

  const MatriculaColumn := "MATRICULA"
  const CadastroColumn := "Cadastro"
  const TitleColumn := "TITULO DO CARGO"
  const StatusColumn := "DESC. SITUACAO"
  const UnionColumn := "Sindicato"
  const CompanyColumn := "EMPRESA"
  const VacationDaysColumn := "DIAS DE FÉRIAS"
  const DismissedColumn := "IS_DESLIGADO"
  const DismissalDateColumn := "DATA_DEMISSAO"
  const DismissalDateAccentedColumn := "DATA DEMISSÃO"
  const AdmissionSourceColumn := "Admissão"
  const AdmissionColumn := "DATA_ADMISSAO"
  const DailyValueColumn := "VALOR_DIA"
  const UnionWorkdaysColumn := "DIAS_UTEIS_SINDICATO"
  const RateUnionColumn := "SINDICATO"
  const WorkdaysColumn := "DIAS_UTEIS"
  const RegimeColumn := "TIPO_CALCULO"

  /** `str(row.get(column, ''))` for a text column: empty when the column is absent, `nan` when null. */
  function ColumnText(columns: set<string>, column: string, cell: Option<string>): string {
    if column !in columns then "" else cell.GetOr("nan")
  }

  // ---------------------------------------------------------------------------
  // Input tables (the `raw_files` dictionary)
  // ---------------------------------------------------------------------------

  /** A row of the ATIVOS roster. */
  datatype RosterRow = RosterRow(
    matricula: int,
    title: Option<string>,
    status: Option<string>,
    union: Option<string>,
    company: Option<string>)

  datatype Roster = Roster(columns: set<string>, rows: seq<RosterRow>)

  /** A row of the FÉRIAS table. */
  datatype VacationRow = VacationRow(matricula: Option<int>, days: Option<real>)

  datatype VacationTable = VacationTable(columns: set<string>, rows: seq<VacationRow>)

  /** A row of an identifier list (ESTÁGIO, APRENDIZ, AFASTAMENTOS, EXTERIOR). */
  datatype IdRow = IdRow(matricula: Option<int>, cadastro: Option<int>)

  datatype IdTable = IdTable(columns: set<string>, rows: seq<IdRow>)

  /** A row of DESLIGADOS: its identifier and its `DATA_DEMISSAO` cell. */
  datatype DismissalRow = DismissalRow(matricula: Option<int>, date: Option<ValidDate>)

  datatype DismissalTable = DismissalTable(columns: set<string>, rows: seq<DismissalRow>)

  /** A row of ADMISSÃO. */
  datatype AdmissionRow = AdmissionRow(matricula: Option<int>, admission: Option<ValidDate>)

  datatype AdmissionTable = AdmissionTable(columns: set<string>, rows: seq<AdmissionRow>)

  /** A spreadsheet cell that holds either a number or text. */
  datatype Cell = Num(x: real) | Text(s: string)

  /** A row of the union → daily value table (nulls already dropped). */
  datatype RateRow = RateRow(union: string, value: Cell)

  datatype RateTable = RateTable(columns: set<string>, rows: seq<RateRow>)

  function RateUnion(r: RateRow): string {
    r.union
  }

  function RateValue(r: RateRow): Cell {
    r.value
  }

  /** A row of the union → workdays table (nulls already dropped). */
  datatype WorkdayRow = WorkdayRow(union: string, days: real)

  datatype WorkdayTable = WorkdayTable(columns: set<string>, rows: seq<WorkdayRow>)

  function WorkdayUnion(w: WorkdayRow): string {
    w.union
  }

  function WorkdayDays(w: WorkdayRow): real {
    w.days
  }

  /** The `raw_files` dictionary: each key present or not; `otherKeys` are files no stage reads. */
  datatype RawFiles = RawFiles(
    ativos: Option<Roster>,
    ferias: Option<VacationTable>,
    estagio: Option<IdTable>,
    aprendiz: Option<IdTable>,
    afastamentos: Option<IdTable>,
    exterior: Option<IdTable>,
    desligados: Option<DismissalTable>,
    admissao: Option<AdmissionTable>,
    baseSindicato: Option<RateTable>,
    baseDiasUteis: Option<WorkdayTable>,
    otherKeys: set<string>)
  {
    /** `not raw_files`: the dictionary has no key at all. */
    predicate IsEmpty() {
      && ativos.None? && ferias.None? && estagio.None? && aprendiz.None? && afastamentos.None?
      && exterior.None? && desligados.None? && admissao.None? && baseSindicato.None?
      && baseDiasUteis.None? && otherKeys == {}
    }
  }

  // ---------------------------------------------------------------------------
  // The consolidated employee table
  // ---------------------------------------------------------------------------

  /** The four exclusion lists, in the order consolidation processes them. */
  datatype Category = Intern | Apprentice | OnLeave | Abroad

  const Categories: seq<Category> := [Intern, Apprentice, OnLeave, Abroad]

  /** The flag column a category sets. */
  function FlagColumn(c: Category): string {
    match c
    case Intern => "IS_ESTAGIARIO"
    case Apprentice => "IS_APRENDIZ"
    case OnLeave => "IS_AFASTADO"
    case Abroad => "IS_EXTERIOR"
  }

  /** The `raw_files` entry a category reads. */
  function CategoryTable(raw: RawFiles, c: Category): Option<IdTable> {
    match c
    case Intern => raw.estagio
    case Apprentice => raw.aprendiz
    case OnLeave => raw.afastamentos
    case Abroad => raw.exterior
  }

  /** The four flag columns `IS_ESTAGIARIO`, `IS_APRENDIZ`, `IS_AFASTADO` and `IS_EXTERIOR`. */
  datatype Flags = Flags(intern: bool, apprentice: bool, onLeave: bool, abroad: bool)
  {
    function Get(c: Category): bool {
      match c
      case Intern => intern
      case Apprentice => apprentice
      case OnLeave => onLeave
      case Abroad => abroad
    }

    function Set(c: Category, b: bool): (r: Flags)
      ensures r.Get(c) == b
      ensures forall d :: d != c ==> r.Get(d) == Get(d)
    {
      match c
      case Intern => this.(intern := b)
      case Apprentice => this.(apprentice := b)
      case OnLeave => this.(onLeave := b)
      case Abroad => this.(abroad := b)
    }
  }

  /** One consolidated row: the roster columns plus everything merged or derived. */
  datatype Employee = Employee(
    matricula: int,
    title: Option<string>,
    status: Option<string>,
    union: Option<string>,
    company: Option<string>,
    vacationDays: Option<real>,
    flags: Flags,
    isDismissed: bool,
    dismissalDate: Option<ValidDate>,
    admissionDate: Option<ValidDate>,
    dailyValue: Option<Cell>,
    unionWorkdays: Option<real>)
  {
    /** The value of a category's flag (false where the flag column was never created). */
    function Flag(c: Category): bool {
      flags.Get(c)
    }

    function WithFlag(c: Category, b: bool): (r: Employee)
      ensures r.Flag(c) == b
      ensures forall d :: d != c ==> r.Flag(d) == Flag(d)
      ensures r.(flags := flags) == this
    {
      this.(flags := flags.Set(c, b))
    }

    /** The roster part of the row. */
    function Roster(): RosterRow {
      RosterRow(matricula, title, status, union, company)
    }
  }

  /** A roster row before anything has been merged into it. */
  function FromRoster(r: RosterRow): (e: Employee)
    ensures e.Roster() == r
    ensures forall c :: !e.Flag(c)
  {
    Employee(r.matricula, r.title, r.status, r.union, r.company,
             None, Flags(false, false, false, false), false, None, None, None, None)
  }

  datatype Table = Table(columns: set<string>, rows: seq<Employee>)

  // ---------------------------------------------------------------------------
  // The validated and calculated tables
  // ---------------------------------------------------------------------------

  /** `TIPO_CALCULO`: the calculation regime of a row. */
  datatype Regime = Integral | Ferias | Proporcional(limit: Option<ValidDate>) | Other(tag: string)
  {
    function Tag(): string {
      match this
      case Integral => "INTEGRAL"
      case Ferias => "FERIAS"
      case Proporcional(_) => "PROPORCIONAL"
      case Other(t) => t
    }
  }

  /** A row that passed the dismissal rule, with its regime (and `DATA_LIMITE_CALCULO`). */
  datatype Assessed = Assessed(emp: Employee, regime: Regime)

  /** A validated row: `EM_FERIAS` and `DIAS_FERIAS` added. */
  datatype Validated = Validated(emp: Employee, regime: Regime, onVacation: bool, vacationDays: int)

  datatype ValidatedTable = ValidatedTable(columns: set<string>, rows: seq<Validated>)

  /** A calculated row: `DIAS_CALCULO`, the three amounts and `OBSERVACOES`. */
  datatype CalcRow = CalcRow(row: Validated, days: int, total: real, company: real, employee: real, notes: string)

  /** The `exclusion_stats` dictionary of the first validation pass. */
  datatype ExclusionStats = ExclusionStats(
    interns: nat, apprentices: nat, onLeave: nat, abroad: nat, directors: nat, invalidStatus: nat)

  /** An entry of `state["errors"]`. */
  datatype StageError = StageError(stage: string, error: string)
}
