/** The cross-dataset analysis: the daily means of every table of a data source are
    stacked into one matrix (one row per table) and every day's column is reduced to
    its population spread. The spread is kept as the variance; the square root that
    turns it into the standard deviation is not modelled. */
module CrossDataset {
  import opened Results
  import opened Statistics
  import opened Tables
  import opened DailyStatistics
  import opened DataSources

  /** `np.stack` of equally long rows: a list of rows becomes a matrix; an empty list or
      rows of different lengths are refused. */
  function Stack(rows: seq<seq<real>>): (r: Result<Table>)
    ensures r.Ok? <==> Rectangular(rows)
    ensures r.Ok? ==> r.value == rows
    ensures r.Err? ==> r.error == (if rows == [] then NothingToStack else ShapeMismatch)
  {
    if rows == [] then Err(NothingToStack)
    else if !Rectangular(rows) then Err(ShapeMismatch)
    else Ok(rows)
  }

  /** The population variance of every column of a matrix. */
  function VarianceByDay(m: Table): (r: seq<real>)
    requires Rectangular(m)
    ensures |r| == Days(m)
    ensures forall j :: 0 <= j < |r| ==> r[j] >= 0.0
  {
    seq(Days(m), j requires 0 <= j < Days(m) => Variance(Column(m, j)))
  }

  /** A column's variance is zero exactly when all rows agree on that column. */
  lemma VarianceByDayZeroIff(m: Table, j: nat)
    requires Rectangular(m) && j < Days(m)
    ensures VarianceByDay(m)[j] == 0.0 <==> forall i, k :: 0 <= i < |m| && 0 <= k < |m| ==> m[i][j] == m[k][j]
  {
    var c := Column(m, j);
    VarianceZeroIffConstant(c);
    assert Constant(c) <==> forall i, k :: 0 <= i < |m| && 0 <= k < |m| ==> m[i][j] == m[k][j];
  }

  /** The tables can be analysed together: there is at least one, each is well formed,
      and all have the same number of days. */
  predicate Compatible(data: seq<Table>)
  {
    |data| > 0 &&
    (forall i :: 0 <= i < |data| ==> Rectangular(data[i])) &&
    forall i :: 0 <= i < |data| ==> Days(data[i]) == Days(data[0])
  }

  /** The daily mean of one table, or the reason it has none. */
  function MeanOfTable(t: Table): (r: Result<seq<real>>)
    ensures r.Ok? <==> Rectangular(t)
    ensures r.Ok? ==> r.value == DailyMean(t)
  {
    DailyStatistic(MeanOf, t)
  }

  /** `compute_standard_deviation_by_day`, up to the square root: the daily means of
      every table, stacked, then the variance of every day across the tables. */
  function ComputeVarianceByDay(data: seq<Table>): (r: Result<seq<real>>)
    ensures r.Ok? <==> Compatible(data)
    ensures r.Ok? ==> |r.value| == Days(data[0]) && forall j :: 0 <= j < |r.value| ==> r.value[j] >= 0.0
    ensures (exists i :: 0 <= i < |data| && !Rectangular(data[i])) ==>
              r.Err? && (r.error == EmptyTable || r.error == RaggedTable)
    ensures data == [] ==> r == Err(NothingToStack)
    ensures data != [] && (forall i :: 0 <= i < |data| ==> Rectangular(data[i])) && !Compatible(data) ==>
              r == Err(ShapeMismatch)
    ensures r.Ok? ==> forall j :: 0 <= j < |r.value| ==>
              r.value[j] == Variance(seq(|data|, i requires 0 <= i < |data| => DailyMean(data[i])[j]))
  {
    var means :- MapAll(data, MeanOfTable);
    assert forall i :: 0 <= i < |data| ==> Rectangular(data[i]) && means[i] == DailyMean(data[i]);
    var stacked :- Stack(means);
    assert forall j :: 0 <= j < Days(stacked) ==>
             Column(stacked, j) == seq(|data|, i requires 0 <= i < |data| => DailyMean(data[i])[j]);
    Ok(VarianceByDay(stacked))
  }

  /** The value of day `j` is zero exactly when every table has the same mean on day `j`. */
  lemma ComputeVarianceByDayZeroIff(data: seq<Table>, j: nat)
    requires Compatible(data) && j < Days(data[0])
    ensures ComputeVarianceByDay(data).Ok?
    ensures ComputeVarianceByDay(data).value[j] == 0.0 <==>
              forall i, k :: 0 <= i < |data| && 0 <= k < |data| ==> DailyMean(data[i])[j] == DailyMean(data[k])[j]
  {
    var means := MapAll(data, MeanOfTable).value;
    assert forall i :: 0 <= i < |data| ==> means[i] == DailyMean(data[i]);
    VarianceByDayZeroIff(means, j);
  }

  /** `analyse_data`: load the tables of the source, then analyse them together. */
  function AnalyseData(source: DataSource, fs: FileSystem): (r: Result<seq<real>>)
    ensures MatchedFiles(source, fs) == [] ==> r == Err(NoDataFound(NoDataMessage(source)))
    ensures LoadInflammationData(source, fs).Err? ==> r == Err(LoadInflammationData(source, fs).error)
    ensures LoadInflammationData(source, fs).Ok? ==> r == ComputeVarianceByDay(LoadInflammationData(source, fs).value)
    ensures r.Ok? ==> LoadInflammationData(source, fs).Ok? &&
                      |LoadInflammationData(source, fs).value| == |MatchedFiles(source, fs)| > 0 &&
                      Compatible(LoadInflammationData(source, fs).value) &&
                      |r.value| == Days(LoadInflammationData(source, fs).value[0]) &&
                      forall j :: 0 <= j < |r.value| ==> r.value[j] >= 0.0
  {
    var data :- LoadInflammationData(source, fs);
    ComputeVarianceByDay(data)
  }
}
