/**
 * The statistics menu: seven named reducers over a table, looked up by name.
 * Results are exact over `real`; the one square root (standard deviation) is returned
 * as the variance it is the root of.
 */
module DataStatistics {
  import opened Wrappers
  import opened Table

  /** The value a reducer returns, before `dataStatistics` turns it into text. */
  datatype Statistic =
    | Number(value: real)
    | SqrtOf(variance: real)
    | RowCount(count: nat)
    | NoData(comparison: string, threshold: real)
    | NotANumber

  // ---------------------------------------------------------------- arithmetic over columns

  function Sum(xs: seq<real>): real {
    if xs == [] then 0.0 else Sum(xs[..|xs| - 1]) + xs[|xs| - 1]
  }

  /** The arithmetic mean of a non-empty column, `np.mean`. */
  function Mean(xs: seq<real>): (m: real)
    requires |xs| > 0
    ensures m * (|xs| as real) == Sum(xs)
  {
    Sum(xs) / (|xs| as real)
  }

  /** Squared distances from `centre`, the terms of a population variance. */
  function SquaredDeviations(xs: seq<real>, centre: real): seq<real> {
    seq(|xs|, i requires 0 <= i < |xs| => (xs[i] - centre) * (xs[i] - centre))
  }

  /** `np.var` with the default `ddof=0`: the mean squared deviation from the mean. */
  function Variance(xs: seq<real>): real
    requires |xs| > 0
  {
    Mean(SquaredDeviations(xs, Mean(xs)))
  }

  lemma {:induction false} SumAtLeast(xs: seq<real>, lo: real)
    requires forall i | 0 <= i < |xs| :: lo <= xs[i]
    ensures (|xs| as real) * lo <= Sum(xs)
  {
    if xs != [] {
      SumAtLeast(xs[..|xs| - 1], lo);
    }
  }

  lemma {:induction false} SumAtMost(xs: seq<real>, hi: real)
    requires forall i | 0 <= i < |xs| :: xs[i] <= hi
    ensures Sum(xs) <= (|xs| as real) * hi
  {
    if xs != [] {
      SumAtMost(xs[..|xs| - 1], hi);
    }
  }

  /** The mean lies between any lower and upper bound of the column. */
  lemma MeanBetween(xs: seq<real>, lo: real, hi: real)
    requires |xs| > 0
    requires forall i | 0 <= i < |xs| :: lo <= xs[i] <= hi
    ensures lo <= Mean(xs) <= hi
  {
    SumAtLeast(xs, lo);
    SumAtMost(xs, hi);
  }

  lemma VarianceNonNegative(xs: seq<real>)
    requires |xs| > 0
    ensures Variance(xs) >= 0.0
  {
    var ds := SquaredDeviations(xs, Mean(xs));
    SumAtLeast(ds, 0.0);
  }

  // ---------------------------------------------------------------- the reducers

  /** `compute_mean_temperature`; numpy gives `nan` for an empty column. */
  function ComputeMeanTemperature(data: seq<Row>): (r: Statistic)
    ensures r.Number? || r.NotANumber?
    ensures r.Number? <==> data != []
    ensures r.Number? ==> r.value * (|data| as real) == Sum(Temperatures(data))
  {
    if data == [] then NotANumber else Number(Mean(Temperatures(data)))
  }

  /** `compute_mean_growth_rate`; numpy gives `nan` for an empty column. */
  function ComputeMeanGrowthRate(data: seq<Row>): (r: Statistic)
    ensures r.Number? || r.NotANumber?
    ensures r.Number? <==> data != []
    ensures r.Number? ==> r.value * (|data| as real) == Sum(GrowthRates(data))
  {
    if data == [] then NotANumber else Number(Mean(GrowthRates(data)))
  }

  /** `compute_std_temperature`, as the population variance under the root. */
  function ComputeStdTemperature(data: seq<Row>): (r: Statistic)
    ensures r.SqrtOf? || r.NotANumber?
    ensures r.SqrtOf? <==> data != []
    ensures r.SqrtOf? ==> r.variance == Variance(Temperatures(data)) && r.variance >= 0.0
  {
    if data == [] then NotANumber
    else
      VarianceNonNegative(Temperatures(data));
      SqrtOf(Variance(Temperatures(data)))
  }

  /** `compute_std_growth_rate`, as the population variance under the root. */
  function ComputeStdGrowthRate(data: seq<Row>): (r: Statistic)
    ensures r.SqrtOf? || r.NotANumber?
    ensures r.SqrtOf? <==> data != []
    ensures r.SqrtOf? ==> r.variance == Variance(GrowthRates(data)) && r.variance >= 0.0
  {
    if data == [] then NotANumber
    else
      VarianceNonNegative(GrowthRates(data));
      SqrtOf(Variance(GrowthRates(data)))
  }

  /** `count_data_rows` */
  function CountDataRows(data: seq<Row>): (r: Statistic)
    ensures r.RowCount? && r.count == |data|
  {
    RowCount(|data|)
  }

  /** Whether a row is strictly on the requested side of the threshold ("below", or anything else for above). */
  predicate OnSide(row: Row, threshold: real, comparison: string) {
    if comparison == "below" then row.temperature < threshold else row.temperature > threshold
  }

  /** The rows `compute_filtered_mean_growth_rate` averages over. */
  function RowsOnSide(data: seq<Row>, threshold: real, comparison: string): seq<Row> {
    Where(data, row => OnSide(row, threshold, comparison))
  }

  /**
   * `compute_filtered_mean_growth_rate`: the mean growth rate of the rows strictly below
   * (or above) the threshold, or the "no data" message when there are none.
   */
  function ComputeFilteredMeanGrowthRate(data: seq<Row>, threshold: real, comparison: string): (r: Statistic)
    ensures r.Number? || r.NoData?
    ensures r.NoData? <==> forall i | 0 <= i < |data| :: !OnSide(data[i], threshold, comparison)
    ensures r.NoData? ==> r == NoData(comparison, threshold)
    ensures r.Number? ==>
              var rows := RowsOnSide(data, threshold, comparison);
              |rows| > 0 && r.value * (|rows| as real) == Sum(GrowthRates(rows))
  {
    var rows := RowsOnSide(data, threshold, comparison);
    if |rows| == 0 then
      assert forall i | 0 <= i < |data| :: data[i] in data;
      NoData(comparison, threshold)
    else
      assert rows[0] in rows;
      Number(Mean(GrowthRates(rows)))
  }

  /** Rows exactly at the threshold never take part, on either side. */
  lemma ThresholdRowsExcluded(data: seq<Row>, threshold: real, comparison: string)
    ensures forall row | row in RowsOnSide(data, threshold, comparison) ::
              row.temperature != threshold && (comparison == "below" <==> row.temperature < threshold)
  {
  }

  // ---------------------------------------------------------------- the dispatch table

  /** One entry of `STATISTIC_OPTIONS`: its menu key, its name and its reducer. */
  datatype StatisticOption = StatisticOption(key: string, name: string, compute: seq<Row> -> Statistic)

  /** `STATISTIC_OPTIONS`, in its order. */
  const StatisticOptions: seq<StatisticOption> := [
    StatisticOption("1", "Mean Temperature", ComputeMeanTemperature),
    StatisticOption("2", "Mean Growth Rate", ComputeMeanGrowthRate),
    StatisticOption("3", "Std Temperature", ComputeStdTemperature),
    StatisticOption("4", "Std Growth Rate", ComputeStdGrowthRate),
    StatisticOption("5", "Data Rows", CountDataRows),
    StatisticOption("6", "Mean Cold Growth Rate", data => ComputeFilteredMeanGrowthRate(data, 20.0, "below")),
    StatisticOption("7", "Mean Hot Growth Rate", data => ComputeFilteredMeanGrowthRate(data, 50.0, "above"))
  ]

  /** The names of the options, in table order: what an incoming name is checked against. */
  function OptionNames(): (names: seq<string>)
    ensures |names| == |StatisticOptions|
    ensures forall i, j | 0 <= i < j < |names| :: names[i] != names[j]
  {
    seq(|StatisticOptions|, i requires 0 <= i < |StatisticOptions| => StatisticOptions[i].name)
  }

  /** The index of the first option named `name`, or `|options|` when there is none. */
  function FirstMatch(options: seq<StatisticOption>, name: string): (i: nat)
    ensures i <= |options|
    ensures i < |options| ==> options[i].name == name
    ensures forall j | 0 <= j < i :: options[j].name != name
  {
    if options == [] || options[0].name == name then 0 else 1 + FirstMatch(options[1..], name)
  }

  datatype StatisticError = InvalidStatistic(statistic: string) | UnableToCompute(statistic: string)

  /**
   * `dataStatistics`: an unknown name fails with an invalid-argument error; a known name
   * gives that option's reducer applied to the data. The "unable to compute" error is
   * never produced, because the seven names are distinct.
   */
  function DataStatistics(data: seq<Row>, statistic: string): (r: Result<Statistic, StatisticError>)
    ensures r.Failure? <==> statistic !in OptionNames()
    ensures r.Failure? ==> r.error == InvalidStatistic(statistic)
    ensures forall i | 0 <= i < |StatisticOptions| && StatisticOptions[i].name == statistic ::
              r == Success(StatisticOptions[i].compute(data))
  {
    assert forall i | 0 <= i < |StatisticOptions| :: OptionNames()[i] == StatisticOptions[i].name;
    if statistic !in OptionNames() then Failure(InvalidStatistic(statistic))
    else
      var i := FirstMatch(StatisticOptions, statistic);
      if i < |StatisticOptions| then Success(StatisticOptions[i].compute(data))
      else Failure(UnableToCompute(statistic))
  }

  /**
   * `STATISTIC_OPTIONS[key]["name"]` for a key the menu found in the table: the name
   * of the option filed under `key`.
   */
  function NameOfKey(options: seq<StatisticOption>, key: string): (name: Option<string>)
    ensures name.None? <==> forall i | 0 <= i < |options| :: options[i].key != key
    ensures name.Some? ==> exists i | 0 <= i < |options| :: options[i].key == key && options[i].name == name.value
  {
    if options == [] then None
    else if options[0].key == key then Some(options[0].name)
    else
      var name := NameOfKey(options[1..], key);
      assert name.Some? ==> exists i | 0 <= i < |options[1..]| :: options[1..][i].key == key && options[1..][i].name == name.value;
      name
  }

  // ---------------------------------------------------------------- properties of the table

  /** Menu key "5" is the row count. */
  lemma KeyFiveCountsRows(data: seq<Row>)
    ensures NameOfKey(StatisticOptions, "5") == Some("Data Rows")
    ensures DataStatistics(data, "Data Rows") == Success(RowCount(|data|))
  {
    NameOfKeyAt(StatisticOptions, 4);
  }

  /** Menu key "6" is the mean growth rate of the rows strictly below 20 degrees. */
  lemma KeySixIsColdMean(data: seq<Row>)
    ensures NameOfKey(StatisticOptions, "6") == Some("Mean Cold Growth Rate")
    ensures DataStatistics(data, "Mean Cold Growth Rate") == Success(ComputeFilteredMeanGrowthRate(data, 20.0, "below"))
  {
    NameOfKeyAt(StatisticOptions, 5);
  }

  /** Menu key "7" is the mean growth rate of the rows strictly above 50 degrees. */
  lemma KeySevenIsHotMean(data: seq<Row>)
    ensures NameOfKey(StatisticOptions, "7") == Some("Mean Hot Growth Rate")
    ensures DataStatistics(data, "Mean Hot Growth Rate") == Success(ComputeFilteredMeanGrowthRate(data, 50.0, "above"))
  {
    NameOfKeyAt(StatisticOptions, 6);
  }

  /** The lookup finds the first option filed under a key. */
  lemma {:induction false} NameOfKeyAt(options: seq<StatisticOption>, k: nat)
    requires k < |options|
    requires forall j | 0 <= j < k :: options[j].key != options[k].key
    ensures NameOfKey(options, options[k].key) == Some(options[k].name)
  {
    if k > 0 {
      NameOfKeyAt(options[1..], k - 1);
    }
  }

  /** `dataStatistics` takes option names: a menu key on its own is an invalid statistic. */
  lemma KeysAreNotNames(data: seq<Row>, key: string)
    requires NameOfKey(StatisticOptions, key).Some?
    ensures DataStatistics(data, key) == Failure(InvalidStatistic(key))
  {
    forall i | 0 <= i < |StatisticOptions| ensures StatisticOptions[i].name != key {
      assert |StatisticOptions[i].name| > 1;
    }
  }

  /** Two rows, one cold and one hot: each restricted mean is that row's growth rate. */
  lemma RestrictedMeanExample()
    ensures ComputeFilteredMeanGrowthRate([Row(15.0, 1.0, 1.0), Row(55.0, 3.0, 1.0)], 50.0, "above") == Number(3.0)
    ensures ComputeFilteredMeanGrowthRate([Row(15.0, 1.0, 1.0), Row(55.0, 3.0, 1.0)], 20.0, "below") == Number(1.0)
  {
    var data := [Row(15.0, 1.0, 1.0), Row(55.0, 3.0, 1.0)];
    assert data[1..] == [Row(55.0, 3.0, 1.0)] && data[1..][1..] == [];
    assert RowsOnSide(data, 50.0, "above") == [Row(55.0, 3.0, 1.0)];
    assert RowsOnSide(data, 20.0, "below") == [Row(15.0, 1.0, 1.0)];
    assert GrowthRates([Row(55.0, 3.0, 1.0)]) == [3.0];
    assert GrowthRates([Row(15.0, 1.0, 1.0)]) == [1.0];
    assert Sum([3.0]) == 3.0 && Sum([1.0]) == 1.0 by {
      assert [3.0][..0] == [] && [1.0][..0] == [];
    }
  }
}
