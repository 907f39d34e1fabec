/**
 * The filtering half of the interactive script: the `active_filters` record, the menu
 * step that edits it, and `apply_filters`, which narrows the loaded table to the rows
 * that pass every active filter.
 */
module Filters {
  import opened Wrappers
  import opened Text
  import opened Table
  import opened DataLoad
  import opened DataStatistics

  /** The pair stored under "growth_rate_range"; `None` is a side the user left empty. */
  datatype GrowthRateRange = GrowthRateRange(lower: Option<real>, upper: Option<real>)

  /** The contents of the `active_filters` dict; a key that is not present is `None`. */
  datatype FilterState = FilterState(bacteria: Option<int>, growthRateRange: Option<GrowthRateRange>)

  const NoFilters: FilterState := FilterState(None, None)

  /** Python truthiness of a bound: `None` and `0.0` are false. */
  predicate IsSet(bound: Option<real>) {
    bound.Some? && bound.value != 0.0
  }

  /**
   * `apply_filters`: keep the rows with the chosen bacteria code, then those at or above a
   * set lower bound, then those at or below a set upper bound.
   */
  function ApplyFilters(data: seq<Row>, filters: FilterState): (r: seq<Row>)
    ensures |r| <= |data|
    ensures forall row | row in r :: row in data && Passes(filters, row)
  {
    var byCode :=
      if filters.bacteria.Some? then Where(data, (row: Row) => row.bacteriaCode == filters.bacteria.value as real)
      else data;
    if filters.growthRateRange.None? then byCode
    else
      var range := filters.growthRateRange.value;
      var byLower :=
        if IsSet(range.lower) then Where(byCode, (row: Row) => row.growthRate >= range.lower.value)
        else byCode;
      if IsSet(range.upper) then Where(byLower, (row: Row) => row.growthRate <= range.upper.value)
      else byLower
  }

  /** A row passes when it meets every active filter; inactive ones (absent or falsy) impose nothing. */
  predicate Passes(filters: FilterState, row: Row) {
    && (filters.bacteria.Some? ==> row.bacteriaCode == filters.bacteria.value as real)
    && (filters.growthRateRange.Some? && IsSet(filters.growthRateRange.value.lower) ==>
          row.growthRate >= filters.growthRateRange.value.lower.value)
    && (filters.growthRateRange.Some? && IsSet(filters.growthRateRange.value.upper) ==>
          row.growthRate <= filters.growthRateRange.value.upper.value)
  }

  /** The filters are ANDed: applying them in turn keeps exactly the rows that pass all of them. */
  lemma ApplyFiltersIsConjunction(data: seq<Row>, filters: FilterState)
    ensures ApplyFilters(data, filters) == Where(data, row => Passes(filters, row))
  {
    var code := (row: Row) => filters.bacteria.Some? ==> row.bacteriaCode == filters.bacteria.value as real;
    var byCode := Where(data, code);
    var byCode' := if filters.bacteria.Some? then Where(data, (row: Row) => row.bacteriaCode == filters.bacteria.value as real) else data;
    if filters.bacteria.Some? {
      WhereSame(data, code, (row: Row) => row.bacteriaCode == filters.bacteria.value as real);
    } else {
      WhereAll(data, code);
    }
    assert byCode' == byCode;
    if filters.growthRateRange.None? {
      WhereSame(data, code, row => Passes(filters, row));
    } else {
      var range := filters.growthRateRange.value;
      var lower := (row: Row) => IsSet(range.lower) ==> row.growthRate >= range.lower.value;
      var upper := (row: Row) => IsSet(range.upper) ==> row.growthRate <= range.upper.value;
      var codeLower := (row: Row) => code(row) && lower(row);
      var byLower := Where(byCode, lower);
      if IsSet(range.lower) {
        WhereSame(byCode, lower, (row: Row) => row.growthRate >= range.lower.value);
      } else {
        WhereAll(byCode, lower);
      }
      if IsSet(range.upper) {
        WhereSame(byLower, upper, (row: Row) => row.growthRate <= range.upper.value);
      } else {
        WhereAll(byLower, upper);
      }
      WhereWhere(data, code, lower, codeLower);
      WhereWhere(data, codeLower, upper, row => Passes(filters, row));
    }
  }

  /** The result keeps the input's order and only drops rows, so it is never longer. */
  lemma ApplyFiltersIsSubsequence(data: seq<Row>, filters: FilterState)
    ensures IsSubsequence(ApplyFilters(data, filters), data)
    ensures |ApplyFilters(data, filters)| <= |data|
  {
    ApplyFiltersIsConjunction(data, filters);
    WhereIsSubsequence(data, row => Passes(filters, row));
  }

  /** A row is in the result exactly when it is in the input and passes every active filter. */
  lemma ApplyFiltersKeepsPassingRows(data: seq<Row>, filters: FilterState)
    ensures forall row :: row in ApplyFilters(data, filters) <==> row in data && Passes(filters, row)
  {
    ApplyFiltersIsConjunction(data, filters);
  }

  /** With a bacteria filter, every remaining row has that code, and only rows with other codes go. */
  lemma BacteriaFilterSelectsCode(data: seq<Row>, code: int)
    ensures forall row | row in ApplyFilters(data, FilterState(Some(code), None)) :: row.bacteriaCode == code as real
    ensures forall row | row in data && row.bacteriaCode == code as real :: row in ApplyFilters(data, FilterState(Some(code), None))
  {
    ApplyFiltersKeepsPassingRows(data, FilterState(Some(code), None));
  }

  /** No active filter, or a range with both sides empty, leaves the table as it is. */
  lemma NoFiltersIsIdentity(data: seq<Row>)
    ensures ApplyFilters(data, NoFilters) == data
    ensures ApplyFilters(data, FilterState(None, Some(GrowthRateRange(None, None)))) == data
  {
    ApplyFiltersIsConjunction(data, NoFilters);
    WhereAll(data, row => Passes(NoFilters, row));
  }

  /** A bound of 0.0 is falsy and restricts nothing: it acts as if that side were empty. */
  lemma ZeroBoundIgnored(data: seq<Row>, bacteria: Option<int>, lower: Option<real>, upper: Option<real>)
    ensures ApplyFilters(data, FilterState(bacteria, Some(GrowthRateRange(Some(0.0), upper))))
         == ApplyFilters(data, FilterState(bacteria, Some(GrowthRateRange(None, upper))))
    ensures ApplyFilters(data, FilterState(bacteria, Some(GrowthRateRange(lower, Some(0.0)))))
         == ApplyFilters(data, FilterState(bacteria, Some(GrowthRateRange(lower, None))))
  {
  }

  // ---------------------------------------------------------------- upper bound 0.0 (finding)

  /** An upper bound the user typed as "0" is stored, and then ignored: a row above it survives. */
  lemma UpperBoundZeroKeepsLargerRates()
    ensures var data := [Row(20.0, 1.0, 1.0)];
            var filters := FilterState(None, Some(GrowthRateRange(None, Some(0.0))));
            ApplyFilters(data, filters) == data && data[0].growthRate > 0.0
  {
  }

  /** A bound is in force whenever the user gave one, zero included. */
  predicate PassesIntended(filters: FilterState, row: Row) {
    && (filters.bacteria.Some? ==> row.bacteriaCode == filters.bacteria.value as real)
    && (filters.growthRateRange.Some? && filters.growthRateRange.value.lower.Some? ==>
          row.growthRate >= filters.growthRateRange.value.lower.value)
    && (filters.growthRateRange.Some? && filters.growthRateRange.value.upper.Some? ==>
          row.growthRate <= filters.growthRateRange.value.upper.value)
  }

  /** `apply_filters` with the bounds tested with `is not None` rather than for truthiness. */
  function ApplyFiltersIntended(data: seq<Row>, filters: FilterState): (r: seq<Row>)
    ensures forall row :: row in r <==> row in data && PassesIntended(filters, row)
    ensures IsSubsequence(r, data) && |r| <= |data|
  {
    WhereIsSubsequence(data, row => PassesIntended(filters, row));
    Where(data, row => PassesIntended(filters, row))
  }

  /** Every row of the intended result lies within each bound the user gave, zero included. */
  lemma IntendedFiltersRespectBounds(data: seq<Row>, filters: FilterState)
    requires filters.growthRateRange.Some?
    ensures forall row | row in ApplyFiltersIntended(data, filters) ::
              && (filters.growthRateRange.value.lower.Some? ==> filters.growthRateRange.value.lower.value <= row.growthRate)
              && (filters.growthRateRange.value.upper.Some? ==> row.growthRate <= filters.growthRateRange.value.upper.value)
  {
  }

  /** The two agree on every table whenever no bound is zero. */
  lemma IntendedAgreesWithoutZeroBounds(data: seq<Row>, filters: FilterState)
    requires filters.growthRateRange.Some? ==>
               filters.growthRateRange.value.lower != Some(0.0) && filters.growthRateRange.value.upper != Some(0.0)
    ensures ApplyFiltersIntended(data, filters) == ApplyFilters(data, filters)
  {
    ApplyFiltersIsConjunction(data, filters);
    WhereSame(data, row => PassesIntended(filters, row), row => Passes(filters, row));
  }

  // ---------------------------------------------------------------- the menu

  /** The bacteria choices the menu accepts; each is the code it stands for. */
  const BacteriaChoices: seq<string> := ["1", "2", "3", "4"]

  /** An empty answer is an absent bound; otherwise the answer is parsed, and `None` means the parse raised. */
  function ReadBound(bound: string): (r: Option<Option<real>>)
    ensures r == Some(None) <==> bound == ""
    ensures r.None? <==> bound != "" && ParseReal(bound).None?
    ensures r.Some? && r.value.Some? ==> ParseReal(bound) == r.value
  {
    if bound == "" then Some(None)
    else
      match ParseReal(bound)
      case None => None
      case Some(x) => Some(Some(x))
  }

  /** A typed whole number is read back as that bound. */
  lemma ReadBoundDecimal(n: nat)
    ensures ReadBound(Decimal(n)) == Some(Some(n as real))
  {
    ParseDecimal(n);
  }

  /** The `active_filters` dict, which the filter menu edits in place. */
  class ActiveFilters {
    var bacteria: Option<int>
    var growthRateRange: Option<GrowthRateRange>

    function Current(): FilterState
      reads this
    {
      FilterState(bacteria, growthRateRange)
    }

    /** A new, empty filter record. */
    constructor ()
      ensures Current() == NoFilters
    {
      bacteria := None;
      growthRateRange := None;
    }

    /**
     * `filter_data_menu` with the user's answers passed in. Choice "1" sets the bacteria
     * filter when the answer is a valid code; choice "2" sets the growth-rate range when at
     * least one side is non-empty (an unparsable side makes `float()` raise, reported as
     * `failed`, and nothing changes); choice "3" hands back a new, empty record and leaves
     * this one alone; any other choice changes nothing. Except for "3" the result is this
     * same record.
     */
    method FilterDataMenu(filterChoice: string, bacteriaChoice: string, lowerBound: string, upperBound: string)
      returns (result: ActiveFilters, failed: bool)
      modifies this
      ensures filterChoice == "3" ==> fresh(result) && result.Current() == NoFilters && unchanged(this)
      ensures filterChoice != "3" ==> result == this
      ensures failed <==>
                filterChoice == "2" && (ReadBound(lowerBound).None? || ReadBound(upperBound).None?)
      ensures filterChoice == "1" && bacteriaChoice in BacteriaChoices ==>
                && bacteria.Some? && (bacteria.value as real) in ValidBacteriaCodes
                && Decimal(bacteria.value) == bacteriaChoice
                && growthRateRange == old(growthRateRange)
      ensures filterChoice == "2" && (lowerBound != "" || upperBound != "") && !failed ==>
                && bacteria == old(bacteria)
                && growthRateRange == Some(GrowthRateRange(ReadBound(lowerBound).value, ReadBound(upperBound).value))
      ensures || (filterChoice == "1" && bacteriaChoice !in BacteriaChoices)
              || (filterChoice == "2" && ((lowerBound == "" && upperBound == "") || failed))
              || (filterChoice !in ["1", "2", "3"])
              ==> unchanged(this)
    {
      result, failed := this, false;
      if filterChoice == "1" {
        if bacteriaChoice in BacteriaChoices {
          var code := DigitsValue(bacteriaChoice);
          bacteria := Some(code);
        }
      } else if filterChoice == "2" {
        if lowerBound != "" || upperBound != "" {
          var lower, upper := ReadBound(lowerBound), ReadBound(upperBound);
          if lower.None? || upper.None? {
            failed := true;
            return;
          }
          growthRateRange := Some(GrowthRateRange(lower.value, upper.value));
        }
      } else if filterChoice == "3" {
        result := new ActiveFilters();
      }
    }
  }

  // ---------------------------------------------------------------- statistics of the filtered view

  /**
   * What the statistics menu computes on a filtered view of a loaded table stays within
   * the loader's ranges: mean temperature in [10, 60], growth-rate means non-negative,
   * and never more rows than were loaded. This holds for the filter as written and for
   * the intended one.
   */
  lemma FilteredStatisticsInRange(data: seq<Row>, filters: FilterState)
    requires forall i | 0 <= i < |data| :: IsValidRow(data[i])
    ensures StatisticsInRange(ApplyFilters(data, filters), |data|)
    ensures StatisticsInRange(ApplyFiltersIntended(data, filters), |data|)
  {
    ApplyFiltersKeepsPassingRows(data, filters);
    ApplyFiltersIsSubsequence(data, filters);
    SelectionStatisticsInRange(data, ApplyFilters(data, filters));
    SelectionStatisticsInRange(data, ApplyFiltersIntended(data, filters));
  }

  /** The statistics of a table whose rows all satisfy the loader's constraints. */
  ghost predicate StatisticsInRange(view: seq<Row>, loaded: nat) {
    && CountDataRows(view).count <= loaded
    && (view != [] ==> 10.0 <= ComputeMeanTemperature(view).value <= 60.0)
    && (view != [] ==> ComputeMeanGrowthRate(view).value >= 0.0)
    && (ComputeFilteredMeanGrowthRate(view, 20.0, "below").Number? ==>
          ComputeFilteredMeanGrowthRate(view, 20.0, "below").value >= 0.0)
    && (ComputeFilteredMeanGrowthRate(view, 50.0, "above").Number? ==>
          ComputeFilteredMeanGrowthRate(view, 50.0, "above").value >= 0.0)
  }

  lemma SelectionStatisticsInRange(data: seq<Row>, view: seq<Row>)
    requires forall i | 0 <= i < |data| :: IsValidRow(data[i])
    requires forall row | row in view :: row in data
    requires |view| <= |data|
    ensures StatisticsInRange(view, |data|)
  {
    forall i | 0 <= i < |view| ensures IsValidRow(view[i]) {
      assert view[i] in view;
      var j :| 0 <= j < |data| && data[j] == view[i];
    }
    if view != [] {
      MeanBetween(Temperatures(view), 10.0, 60.0);
      SumAtLeast(GrowthRates(view), 0.0);
    }
    GrowthRatesOfSubsetNonNegative(view, 20.0, "below");
    GrowthRatesOfSubsetNonNegative(view, 50.0, "above");
  }

  lemma GrowthRatesOfSubsetNonNegative(view: seq<Row>, threshold: real, comparison: string)
    requires forall i | 0 <= i < |view| :: IsValidRow(view[i])
    ensures ComputeFilteredMeanGrowthRate(view, threshold, comparison).Number? ==>
              ComputeFilteredMeanGrowthRate(view, threshold, comparison).value >= 0.0
  {
    var rows := RowsOnSide(view, threshold, comparison);
    forall i | 0 <= i < |rows| ensures rows[i].growthRate >= 0.0 {
      assert rows[i] in rows;
      var j :| 0 <= j < |view| && view[j] == rows[i];
    }
    SumAtLeast(GrowthRates(rows), 0.0);
  }
}
