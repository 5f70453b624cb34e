/** The inflammation table: one row per patient, one column per day. */
module Tables {

  type Table = seq<seq<real>>

  /** A well-formed table: at least one patient, and every row as long as the first. */
  predicate Rectangular(t: Table)
  {
    |t| > 0 && forall i :: 0 <= i < |t| ==> |t[i]| == |t[0]|
  }

  /** The number of days (columns) of a well-formed table. */
  function Days(t: Table): nat
    requires Rectangular(t)
  {
    |t[0]|
  }

  /** The readings of day `j`, one per patient, in row order. */
  function Column(t: Table, j: nat): (c: seq<real>)
    requires Rectangular(t) && j < Days(t)
    ensures |c| == |t|
    ensures forall i :: 0 <= i < |t| ==> c[i] == t[i][j]
  {
    seq(|t|, i requires 0 <= i < |t| => t[i][j])
  }
}
