/** Values shared by every stage of the signal pipeline: optional values (a
    pandas NaN is `None`), the errors the pipeline raises, and sums over a
    series of reals. */
module Common {

  /** A cell of a pandas column: `None` stands for NaN / a missing value. */
  datatype Option<T> = None | Some(value: T)

  /** The exceptions the pipeline can raise. */
  datatype Error =
    | DataError       // the `ValueError` of main.py:14: a downloaded column is empty
    | EmptyPanel      // the `ValueError` of the least-squares fit (main.py:21): no aligned row
    | InvalidWindow   // pandas' `ValueError`: the rolling window is negative

  datatype Result<T> = Ok(value: T) | Err(error: Error)

  /** Sum of a series, accumulated from the left. */
  function Sum(xs: seq<real>): real
  {
    if xs == [] then 0.0 else Sum(xs[..|xs| - 1]) + xs[|xs| - 1]
  }

  lemma {:induction false} SumAppend(a: seq<real>, b: seq<real>)
    ensures Sum(a + b) == Sum(a) + Sum(b)
    decreases |b|
  {
    if b == [] {
      assert a + b == a;
    } else {
      assert (a + b)[..|a + b| - 1] == a + b[..|b| - 1];
      SumAppend(a, b[..|b| - 1]);
    }
  }

  /** A series whose every value is `c` sums to `|xs| * c`. */
  lemma {:induction false} SumConstant(xs: seq<real>, c: real)
    requires forall i :: 0 <= i < |xs| ==> xs[i] == c
    ensures Sum(xs) == |xs| as real * c
  {
    if xs != [] {
      SumConstant(xs[..|xs| - 1], c);
    }
  }

  /** Arithmetic mean of a non-empty series. */
  function Mean(xs: seq<real>): real
    requires |xs| > 0
  {
    Sum(xs) / |xs| as real
  }

  /** The mean of a series that never leaves `c` is `c`. */
  lemma MeanConstant(xs: seq<real>, c: real)
    requires |xs| > 0
    requires forall i :: 0 <= i < |xs| ==> xs[i] == c
    ensures Mean(xs) == c
  {
    SumConstant(xs, c);
  }
}
