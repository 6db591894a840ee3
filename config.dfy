/** Run-wide constants of the benefit computation (src/config.py). */
module Config {

  /** Day of the month up to which a dismissal voids the benefit. */
  const CutoffDay: int := 15

  /** Employer and employee shares of the benefit (exact reals here). */
  const CompanyPercentage: real := 0.8
  const EmployeePercentage: real := 0.2

  /** Job titles excluded from the benefit, matched as substrings of the upper-cased title. */
  const ExcludedPositions: seq<string> := ["DIRETOR", "GERENTE GERAL", "PRESIDENTE", "VICE-PRESIDENTE"]

  /** Fallbacks for an unmapped union. */
  const DefaultWorkdays: int := 22
  const DefaultDailyValue: real := 35.0

  /** Default reference period, "MM/YYYY". */
  const ProcessingMonth: string := "05/2025"
}
