/**
 * The shared state dictionary the stages read and update in place, as a
 * class whose fields are its keys.
 */
module PipelineState {
  import opened Wrappers
  import opened Tables

  class VRState {
    var rawFiles: Option<RawFiles>
    var consolidated: Option<Table>
    var validated: Option<ValidatedTable>
    var calculated: Option<seq<CalcRow>>
    var monthYear: string
    var totalEmployees: int
    var eligibleEmployees: int
    var excludedEmployees: int
    var exclusionStats: Option<ExclusionStats>
    var employeesOnVacation: int
    var calculationTypeDistribution: map<string, nat>
    var companyDistribution: Option<map<string, nat>>
    var unionDistribution: Option<map<string, nat>>
    var totalCalculatedEmployees: int
    var unionCalculationStats: map<string, nat>
    var calculationTypeStats: map<string, nat>
    var errors: seq<StageError>
    var processingStage: string
    var success: bool

    /** A fresh state holding only the loaded files and the reference month. */
    constructor (raw: Option<RawFiles>, month: string)
      ensures rawFiles == raw && monthYear == month
      ensures consolidated.None? && validated.None? && calculated.None?
      ensures errors == [] && success
    {
      rawFiles := raw;
      consolidated := None;
      validated := None;
      calculated := None;
      monthYear := month;
      totalEmployees := 0;
      eligibleEmployees := 0;
      excludedEmployees := 0;
      exclusionStats := None;
      employeesOnVacation := 0;
      calculationTypeDistribution := map[];
      companyDistribution := None;
      unionDistribution := None;
      totalCalculatedEmployees := 0;
      unionCalculationStats := map[];
      calculationTypeStats := map[];
      errors := [];
      processingStage := "";
      success := true;
    }

    /** The loaded files and the reference month, which no stage writes. */
    function Inputs(): (Option<RawFiles>, string)
      reads this
    {
      (rawFiles, monthYear)
    }

    /** The keys the consolidation stage writes besides the outcome. */
    function ConsolidationKeys(): (Option<Table>, int)
      reads this
    {
      (consolidated, totalEmployees)
    }

    /** The counts of the validation stage's first pass. */
    function ExclusionKeys(): (int, Option<ExclusionStats>)
      reads this
    {
      (excludedEmployees, exclusionStats)
    }

    /** The statistics of a successful validation. */
    function DistributionKeys(): (int, int, map<string, nat>, Option<map<string, nat>>, Option<map<string, nat>>)
      reads this
    {
      (eligibleEmployees, employeesOnVacation, calculationTypeDistribution, companyDistribution, unionDistribution)
    }

    /** The statistics of the calculation stage. */
    function CalculationStats(): (int, map<string, nat>, map<string, nat>)
      reads this
    {
      (totalCalculatedEmployees, unionCalculationStats, calculationTypeStats)
    }

    /** The `except` block every stage shares: log the error, clear `success`, mark the stage failed. */
    method RecordError(stage: string, message: string)
      modifies this
      ensures errors == old(errors) + [StageError(stage, message)]
      ensures !success && processingStage == stage + "_failed"
      ensures rawFiles == old(rawFiles) && consolidated == old(consolidated)
      ensures validated == old(validated) && calculated == old(calculated)
      ensures monthYear == old(monthYear) && totalEmployees == old(totalEmployees)
      ensures eligibleEmployees == old(eligibleEmployees) && excludedEmployees == old(excludedEmployees)
      ensures exclusionStats == old(exclusionStats) && employeesOnVacation == old(employeesOnVacation)
      ensures calculationTypeDistribution == old(calculationTypeDistribution)
      ensures companyDistribution == old(companyDistribution) && unionDistribution == old(unionDistribution)
      ensures totalCalculatedEmployees == old(totalCalculatedEmployees)
      ensures unionCalculationStats == old(unionCalculationStats)
      ensures calculationTypeStats == old(calculationTypeStats)
    {
      errors := errors + [StageError(stage, message)];
      success := false;
      processingStage := stage + "_failed";
    }
  }
}
