/** The per-day reductions of one table: each collapses the patients (rows) of every
    day (column) into a single value, giving one value per day. */
module DailyStatistics {
  import opened Results
  import opened Statistics
  import opened Tables

  /** `daily_mean`: the arithmetic mean of every day's readings. */
  function DailyMean(t: Table): (r: seq<real>)
    requires Rectangular(t)
    ensures |r| == Days(t)
  {
    seq(Days(t), j requires 0 <= j < Days(t) => Mean(Column(t, j)))
  }

  /** `daily_max`: for every day, a reading no patient exceeds and some patient has. */
  function DailyMax(t: Table): (r: seq<real>)
    requires Rectangular(t)
    ensures |r| == Days(t)
    ensures forall i, j :: 0 <= i < |t| && 0 <= j < |r| ==> t[i][j] <= r[j]
    ensures forall j :: 0 <= j < |r| ==> exists i :: 0 <= i < |t| && t[i][j] == r[j]
  {
    seq(Days(t), j requires 0 <= j < Days(t) => Max(Column(t, j)))
  }

  /** `daily_min`: for every day, a reading no patient goes below and some patient has. */
  function DailyMin(t: Table): (r: seq<real>)
    requires Rectangular(t)
    ensures |r| == Days(t)
    ensures forall i, j :: 0 <= i < |t| && 0 <= j < |r| ==> r[j] <= t[i][j]
    ensures forall j :: 0 <= j < |r| ==> exists i :: 0 <= i < |t| && t[i][j] == r[j]
  {
    seq(Days(t), j requires 0 <= j < Days(t) => Min(Column(t, j)))
  }

  datatype Statistic = MeanOf | MaxOf | MinOf

  /** One of the three reductions applied to a table that may be malformed: a table
      without patients or with rows of different lengths is refused, as the
      numeric library refuses to reduce it. */
  function DailyStatistic(kind: Statistic, t: Table): (r: Result<seq<real>>)
    ensures r.Ok? <==> Rectangular(t)
    ensures r.Err? ==> r.error == (if |t| == 0 then EmptyTable else RaggedTable)
    ensures r.Ok? ==> |r.value| == Days(t)
    ensures r.Ok? ==> r.value == (match kind
                                  case MeanOf => DailyMean(t)
                                  case MaxOf => DailyMax(t)
                                  case MinOf => DailyMin(t))
  {
    if |t| == 0 then Err(EmptyTable)
    else if !Rectangular(t) then Err(RaggedTable)
    else
      match kind
      case MeanOf => Ok(DailyMean(t))
      case MaxOf => Ok(DailyMax(t))
      case MinOf => Ok(DailyMin(t))
  }

  /** Two sequences meeting the contract of DailyMax are equal: the contract pins
      the maximum down. */
  lemma DailyMaxUnique(t: Table, r: seq<real>)
    requires Rectangular(t) && |r| == Days(t)
    requires forall i, j :: 0 <= i < |t| && 0 <= j < |r| ==> t[i][j] <= r[j]
    requires forall j :: 0 <= j < |r| ==> exists i :: 0 <= i < |t| && t[i][j] == r[j]
    ensures r == DailyMax(t)
  {
    var m := DailyMax(t);
    forall j | 0 <= j < |r| ensures r[j] == m[j] {
      var i :| 0 <= i < |t| && t[i][j] == r[j];
      var k :| 0 <= k < |t| && t[k][j] == m[j];
      assert r[j] <= m[j] && m[j] <= r[j];
    }
  }

  /** Two sequences meeting the contract of DailyMin are equal. */
  lemma DailyMinUnique(t: Table, r: seq<real>)
    requires Rectangular(t) && |r| == Days(t)
    requires forall i, j :: 0 <= i < |t| && 0 <= j < |r| ==> r[j] <= t[i][j]
    requires forall j :: 0 <= j < |r| ==> exists i :: 0 <= i < |t| && t[i][j] == r[j]
    ensures r == DailyMin(t)
  {
    var m := DailyMin(t);
    forall j | 0 <= j < |r| ensures r[j] == m[j] {
      var i :| 0 <= i < |t| && t[i][j] == r[j];
      var k :| 0 <= k < |t| && t[k][j] == m[j];
      assert r[j] <= m[j] && m[j] <= r[j];
    }
  }

  /** Every daily mean lies between that day's minimum and maximum. */
  lemma DailyMeanWithinRange(t: Table)
    requires Rectangular(t)
    ensures forall j :: 0 <= j < Days(t) ==> DailyMin(t)[j] <= DailyMean(t)[j] <= DailyMax(t)[j]
  {
    forall j | 0 <= j < Days(t) ensures DailyMin(t)[j] <= DailyMean(t)[j] <= DailyMax(t)[j] {
      MeanBetweenMinAndMax(Column(t, j));
    }
  }

  /** A day on which every patient has the same reading has that reading as its mean. */
  lemma DailyMeanOfUniformDay(t: Table, j: nat, c: real)
    requires Rectangular(t) && j < Days(t)
    requires forall i :: 0 <= i < |t| ==> t[i][j] == c
    ensures DailyMean(t)[j] == c
  {
    MeanOfConstant(Column(t, j), c);
  }

  /** The patients' deviations from a day's mean cancel out. */
  lemma DailyMeanBalances(t: Table, j: nat)
    requires Rectangular(t) && j < Days(t)
    ensures Sum(seq(|t|, i requires 0 <= i < |t| => t[i][j] - DailyMean(t)[j])) == 0.0
  {
    var c := Column(t, j);
    DeviationsFromMeanCancel(c);
    assert DailyMean(t)[j] == Mean(c);
    var lhs := seq(|t|, i requires 0 <= i < |t| => t[i][j] - DailyMean(t)[j]);
    var rhs := seq(|c|, i requires 0 <= i < |c| => c[i] - Mean(c));
    assert forall i :: 0 <= i < |t| ==> lhs[i] == rhs[i];
    assert lhs == rhs;
  }

  /** The cases of the statistics tests. */
  lemma DailyMeanExamples()
    ensures DailyMean([[0.0, 0.0], [0.0, 0.0], [0.0, 0.0]]) == [0.0, 0.0]
    ensures DailyMean([[1.0, 2.0], [3.0, 4.0], [5.0, 6.0]]) == [3.0, 4.0]
  {
    var z: Table := [[0.0, 0.0], [0.0, 0.0], [0.0, 0.0]];
    DailyMeanOfUniformDay(z, 0, 0.0);
    DailyMeanOfUniformDay(z, 1, 0.0);
    var t: Table := [[1.0, 2.0], [3.0, 4.0], [5.0, 6.0]];
    assert Column(t, 0) == [1.0, 3.0, 5.0];
    assert Column(t, 1) == [2.0, 4.0, 6.0];
    assert [1.0, 3.0, 5.0][1..] == [3.0, 5.0] && [3.0, 5.0][1..] == [5.0];
    assert [2.0, 4.0, 6.0][1..] == [4.0, 6.0] && [4.0, 6.0][1..] == [6.0];
    assert Sum([1.0, 3.0, 5.0]) == 9.0 && Sum([2.0, 4.0, 6.0]) == 12.0;
  }

  lemma DailyMaxExamples()
    ensures DailyMax([[0.0, 0.0], [0.0, 0.0], [0.0, 0.0]]) == [0.0, 0.0]
    ensures DailyMax([[1.0, 2.0], [5.0, 4.0], [3.0, 6.0]]) == [5.0, 6.0]
  {
    var z: Table := [[0.0, 0.0], [0.0, 0.0], [0.0, 0.0]];
    DailyMaxUnique(z, [0.0, 0.0]);
    var t: Table := [[1.0, 2.0], [5.0, 4.0], [3.0, 6.0]];
    assert t[1][0] == 5.0 && t[2][1] == 6.0;
    DailyMaxUnique(t, [5.0, 6.0]);
  }

  lemma DailyMinExamples()
    ensures DailyMin([[0.0, 0.0], [0.0, 0.0], [0.0, 0.0]]) == [0.0, 0.0]
    ensures DailyMin([[1.0, 4.0], [3.0, 6.0], [5.0, 2.0]]) == [1.0, 2.0]
  {
    var z: Table := [[0.0, 0.0], [0.0, 0.0], [0.0, 0.0]];
    DailyMinUnique(z, [0.0, 0.0]);
    var t: Table := [[1.0, 4.0], [3.0, 6.0], [5.0, 2.0]];
    assert t[0][0] == 1.0 && t[2][1] == 2.0;
    DailyMinUnique(t, [1.0, 2.0]);
  }
}
