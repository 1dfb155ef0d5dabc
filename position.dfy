/** The position column (main.py:29-34). It starts as all zeros; the rows whose
    z-score is above the entry threshold are set to -1 (short the spread), then
    the rows below minus the threshold are set to +1 (long the spread); finally
    the column is forward-filled and its remaining gaps set to 0. The column
    never holds a gap, so that last step changes nothing and each position
    depends on its own row's z-score alone. */
module Position {
  import opened Common

  /** The mask of main.py:32: z-score above the entry threshold. An undefined
      z-score compares false. */
  predicate ShortSignal(z: Option<real>, entry: real)
  {
    z.Some? && z.value > entry
  }

  /** The mask of main.py:33: z-score below minus the entry threshold. */
  predicate LongSignal(z: Option<real>, entry: real)
  {
    z.Some? && z.value < -entry
  }

  /** The position the code gives a row with z-score `z`. The long mask is
      applied second, so it wins where both masks hold. */
  function PositionAt(z: Option<real>, entry: real): (p: int)
    ensures p == -1 || p == 0 || p == 1
  {
    if LongSignal(z, entry) then 1 else if ShortSignal(z, entry) then -1 else 0
  }

  function Negate(z: Option<real>): Option<real>
  {
    if z.Some? then Some(-z.value) else None
  }

  /** With a non-negative threshold: -1 exactly above the threshold, +1 exactly
      below its negation, and 0 for every other row, undefined ones included. */
  lemma PositionRule(z: Option<real>, entry: real)
    requires entry >= 0.0
    ensures PositionAt(z, entry) == -1 <==> z.Some? && z.value > entry
    ensures PositionAt(z, entry) == 1 <==> z.Some? && z.value < -entry
    ensures PositionAt(z, entry) == 0 <==> z.None? || -entry <= z.value <= entry
  {
  }

  /** With a non-negative threshold the two masks never both hold. */
  lemma SignalsDisjoint(z: Option<real>, entry: real)
    requires entry >= 0.0
    ensures !(ShortSignal(z, entry) && LongSignal(z, entry))
  {
  }

  /** With a negative threshold a z-score between the two bounds passes both
      masks, and the later assignment (+1) stands. */
  lemma OverlapGoesLong(z: real, entry: real)
    requires entry < z < -entry
    ensures ShortSignal(Some(z), entry) && LongSignal(Some(z), entry)
    ensures PositionAt(Some(z), entry) == 1
  {
  }

  /** With a negative threshold every defined z-score trades: +1 below minus
      the threshold, -1 otherwise. */
  lemma NegativeThresholdAlwaysTrades(z: Option<real>, entry: real)
    requires entry < 0.0
    ensures z.None? ==> PositionAt(z, entry) == 0
    ensures z.Some? ==> PositionAt(z, entry) == if z.value < -entry then 1 else -1
  {
  }

  /** Negating a z-score negates its position, for a non-negative threshold. */
  lemma PositionAntisymmetric(z: Option<real>, entry: real)
    requires entry >= 0.0
    ensures PositionAt(Negate(z), entry) == -PositionAt(z, entry)
  {
  }

  // ---------------------------------------------------------------------
  // The final reassignment of main.py:34: forward fill, then fill gaps with 0

  /** Forward fill: every gap takes the last defined value before it;
      gaps before the first defined value stay gaps. */
  function FFill(c: seq<Option<int>>): (r: seq<Option<int>>)
    ensures |r| == |c|
    ensures forall t :: 0 <= t < |c| && c[t].Some? ==> r[t] == c[t]
    ensures forall t :: 0 < t < |c| && c[t].None? ==> r[t] == r[t - 1]
    ensures |c| > 0 && c[0].None? ==> r[0].None?
  {
    if c == [] then []
    else
      var p := FFill(c[..|c| - 1]);
      p + [if c[|c| - 1].Some? then c[|c| - 1] else if p == [] then None else p[|p| - 1]]
  }

  /** Every gap replaced by `v`. */
  function FillNa(c: seq<Option<int>>, v: int): (r: seq<int>)
    ensures |r| == |c|
    ensures forall t :: 0 <= t < |c| ==> r[t] == if c[t].Some? then c[t].value else v
  {
    seq(|c|, t requires 0 <= t < |c| => if c[t].Some? then c[t].value else v)
  }

  /** An integer column seen as cells, none of them missing. */
  function Cells(col: seq<int>): (c: seq<Option<int>>)
    ensures |c| == |col|
  {
    seq(|col|, t requires 0 <= t < |col| => Some(col[t]))
  }

  /** On a column without gaps, forward fill followed by filling with 0 is
      the identity. */
  lemma FillGaplessColumn(col: seq<int>)
    ensures FillNa(FFill(Cells(col)), 0) == col
  {
    var filled := FFill(Cells(col));
    assert forall t :: 0 <= t < |col| ==> filled[t] == Some(col[t]);
  }

  /** main.py:29-34: the position column for the z-score column `z`. */
  method Positions(z: seq<Option<real>>, entry: real) returns (position: array<int>)
    ensures position.Length == |z|
    ensures forall t :: 0 <= t < |z| ==> position[t] == PositionAt(z[t], entry)
  {
    var n := |z|;
    position := new int[n](_ => 0);
    for t := 0 to n
      invariant forall i :: 0 <= i < t ==> position[i] == if ShortSignal(z[i], entry) then -1 else 0
      invariant forall i :: t <= i < n ==> position[i] == 0
    {
      if ShortSignal(z[t], entry) {
        position[t] := -1;
      }
    }
    for t := 0 to n
      invariant forall i :: 0 <= i < t ==> position[i] == PositionAt(z[i], entry)
      invariant forall i :: t <= i < n ==> position[i] == if ShortSignal(z[i], entry) then -1 else 0
    {
      if LongSignal(z[t], entry) {
        position[t] := 1;
      }
    }
    var filled := FillNa(FFill(Cells(position[..])), 0);
    FillGaplessColumn(position[..]);
    forall t | 0 <= t < n {
      position[t] := filled[t];
    }
  }
}
