/** The spread and its standardisation (main.py:23-27): the hedged spread (the
    second price less `beta` times the first), its trailing rolling mean and
    rolling standard deviation over `window` points, and the z-score built
    from them.

    The rolling standard deviation needs a square root, so the sample standard
    deviation of one window is a parameter `std`; `StdLaws` states the two
    properties of it the model relies on. */
module Rolling {
  import opened Common
  import opened Alignment

  /** `k * xs`, element by element. */
  function Scale(k: real, xs: seq<real>): (r: seq<real>)
    ensures |r| == |xs|
  {
    seq(|xs|, i requires 0 <= i < |xs| => k * xs[i])
  }

  /** `xs - ys`, element by element, on two columns of one frame. */
  function Minus(xs: seq<real>, ys: seq<real>): (r: seq<real>)
    requires |xs| == |ys|
    ensures |r| == |xs|
  {
    seq(|xs|, i requires 0 <= i < |xs| => xs[i] - ys[i])
  }

  /** main.py:23: one spread value per aligned date, the second price less
      `beta` times the first. */
  function Spread(panel: seq<Bar>, beta: real): (r: seq<real>)
    ensures |r| == |panel|
    ensures forall t :: 0 <= t < |r| ==> r[t] == panel[t].second - beta * panel[t].first
  {
    Minus(Column2(panel), Scale(beta, Column1(panel)))
  }

  /** The `w` values of `xs` that end at index `t`, inclusive. */
  function Window(xs: seq<real>, t: nat, w: nat): (r: seq<real>)
    requires 1 <= w <= t + 1 <= |xs|
    ensures |r| == w && r[w - 1] == xs[t]
  {
    xs[t + 1 - w..t + 1]
  }

  /** The rolling mean of main.py:25. pandas requires `w` observations
      (`min_periods` defaults to the window) and at least one, so index `t`
      has a mean only when `1 <= w <= t + 1`. */
  function RollingMean(xs: seq<real>, w: nat): (r: seq<Option<real>>)
    ensures |r| == |xs|
    ensures forall t :: 0 <= t < |xs| ==> (r[t].Some? <==> 1 <= w <= t + 1)
  {
    seq(|xs|, t requires 0 <= t < |xs| =>
      if 1 <= w <= t + 1 then Some(Mean(Window(xs, t, w))) else None)
  }

  /** The rolling deviation of main.py:26. The sample deviation (`ddof=1`) needs
      `w` observations and more than one, so index `t` has a deviation only
      when `2 <= w <= t + 1`. */
  function RollingStd(xs: seq<real>, w: nat, std: seq<real> -> real): (r: seq<Option<real>>)
    ensures |r| == |xs|
    ensures forall t :: 0 <= t < |xs| ==> (r[t].Some? <==> 2 <= w <= t + 1)
  {
    seq(|xs|, t requires 0 <= t < |xs| =>
      if 2 <= w <= t + 1 then Some(std(Window(xs, t, w))) else None)
  }

  predicate Constant(xs: seq<real>)
  {
    forall i :: 0 <= i < |xs| ==> xs[i] == xs[0]
  }

  /** What the model assumes of the sample standard deviation of a window of
      two or more values: it is never negative, and it is zero exactly when
      every value of the window is the same. */
  ghost predicate StdLaws(std: seq<real> -> real)
  {
    forall w: seq<real> :: |w| >= 2 ==> std(w) >= 0.0 && (std(w) == 0.0 <==> Constant(w))
  }

  /** One z-score, `(x - m) / s`: undefined when either statistic is, and
      when `s` is zero (where pandas would divide by zero). */
  function StandardScore(x: real, m: Option<real>, s: Option<real>): (z: Option<real>)
    ensures z.Some? <==> m.Some? && s.Some? && s.value != 0.0
    ensures z.Some? ==> m.value + z.value * s.value == x
  {
    if m.Some? && s.Some? && s.value != 0.0 then Some((x - m.value) / s.value) else None
  }

  /** main.py:25-27, the z-score column of the spread `xs`. */
  function ZScores(xs: seq<real>, w: nat, std: seq<real> -> real): (z: seq<Option<real>>)
    ensures |z| == |xs|
  {
    var mean, sd := RollingMean(xs, w), RollingStd(xs, w, std);
    seq(|xs|, t requires 0 <= t < |xs| => StandardScore(xs[t], mean[t], sd[t]))
  }

  // ---------------------------------------------------------------------
  // The spread

  /** A panel whose second price is exactly `beta` times the first plus `c`
      has the constant spread `c`. */
  lemma ExactHedgeSpread(panel: seq<Bar>, beta: real, c: real)
    requires forall t :: 0 <= t < |panel| ==> panel[t].second == beta * panel[t].first + c
    ensures forall t :: 0 <= t < |panel| ==> Spread(panel, beta)[t] == c
  {
  }

  // ---------------------------------------------------------------------
  // The rolling mean

  /** The mean at `t` is the average of the last `w` spread values, and it is
      undefined for the first `w - 1` indices. */
  lemma RollingMeanAt(xs: seq<real>, w: nat, t: nat)
    requires 1 <= w && t < |xs|
    ensures RollingMean(xs, w)[t].None? <==> t < w - 1
    ensures t >= w - 1 ==> RollingMean(xs, w)[t] == Some(Sum(xs[t + 1 - w..t + 1]) / w as real)
  {
  }

  /** The window sum one step later: the new value in, the oldest out. */
  lemma WindowSumSlides(xs: seq<real>, w: nat, t: nat)
    requires 1 <= w <= t + 1 && t + 1 < |xs|
    ensures Sum(Window(xs, t + 1, w)) == Sum(Window(xs, t, w)) - xs[t + 1 - w] + xs[t + 1]
  {
    var shared := xs[t + 2 - w..t + 1];
    assert Window(xs, t, w) == [xs[t + 1 - w]] + shared;
    assert Window(xs, t + 1, w) == shared + [xs[t + 1]];
    SumAppend([xs[t + 1 - w]], shared);
    SumAppend(shared, [xs[t + 1]]);
  }

  /** Division by a positive count distributes over a sum. */
  lemma DivideSum(x: real, y: real, n: real)
    requires n > 0.0
    ensures (x + y) / n == x / n + y / n
  {
  }

  /** Moving the window one step adds the new value and drops the oldest one:
      `mean[t + 1] = mean[t] + (xs[t + 1] - xs[t + 1 - w]) / w`. */
  lemma RollingMeanSlides(xs: seq<real>, w: nat, t: nat)
    requires 1 <= w <= t + 1 && t + 1 < |xs|
    ensures RollingMean(xs, w)[t].Some? && RollingMean(xs, w)[t + 1].Some?
    ensures RollingMean(xs, w)[t + 1].value
         == RollingMean(xs, w)[t].value + (xs[t + 1] - xs[t + 1 - w]) / w as real
  {
    var before, after := Sum(Window(xs, t, w)), Sum(Window(xs, t + 1, w));
    assert RollingMean(xs, w)[t] == Some(before / w as real);
    assert RollingMean(xs, w)[t + 1] == Some(after / w as real);
    WindowSumSlides(xs, w, t);
    DivideSum(before, xs[t + 1] - xs[t + 1 - w], w as real);
  }

  /** The example of the rolling mean with a window of three on 1..5. */
  lemma RollingMeanExample()
    ensures RollingMean([1.0, 2.0, 3.0, 4.0, 5.0], 3)[2] == Some(2.0)
    ensures RollingMean([1.0, 2.0, 3.0, 4.0, 5.0], 3)[3] == Some(3.0)
  {
    var xs := [1.0, 2.0, 3.0, 4.0, 5.0];
    assert Window(xs, 2, 3) == [1.0, 2.0, 3.0];
    assert Window(xs, 3, 3) == [2.0, 3.0, 4.0];
    assert Sum([1.0, 2.0, 3.0]) == 6.0 by {
      assert [1.0, 2.0, 3.0][..2] == [1.0, 2.0];
      assert [1.0, 2.0][..1] == [1.0];
      assert [1.0][..0] == [];
    }
    assert Sum([2.0, 3.0, 4.0]) == 9.0 by {
      assert [2.0, 3.0, 4.0][..2] == [2.0, 3.0];
      assert [2.0, 3.0][..1] == [2.0];
      assert [2.0][..0] == [];
    }
  }

  // ---------------------------------------------------------------------
  // The z-score

  /** The z-score is undefined wherever the rolling statistics are: for the
      first `w - 1` indices, and everywhere when the window is below two. */
  lemma ZScoreUndefinedEarly(xs: seq<real>, w: nat, std: seq<real> -> real, t: nat)
    requires t < |xs| && (t + 1 < w || w < 2)
    ensures ZScores(xs, w, std)[t].None?
  {
  }

  /** Where the z-score is defined it is the distance of the spread from its
      rolling mean in units of a non-zero rolling deviation. */
  lemma ZScoreDefined(xs: seq<real>, w: nat, std: seq<real> -> real, t: nat)
    requires t < |xs|
    ensures ZScores(xs, w, std)[t].Some? <==> 2 <= w <= t + 1 && std(Window(xs, t, w)) != 0.0
    ensures ZScores(xs, w, std)[t].Some? ==>
      ZScores(xs, w, std)[t].value == (xs[t] - Mean(Window(xs, t, w))) / std(Window(xs, t, w))
  {
  }

  /** A zero rolling deviation only occurs when the spread at `t` equals its
      rolling mean, so pandas computes `0 / 0` (NaN) there and never an
      infinite z-score: leaving the z-score undefined loses nothing. */
  lemma ZeroStdMeansZeroDeviation(xs: seq<real>, w: nat, std: seq<real> -> real, t: nat)
    requires StdLaws(std)
    requires 2 <= w <= t + 1 <= |xs|
    requires std(Window(xs, t, w)) == 0.0
    ensures xs[t] == Mean(Window(xs, t, w))
  {
    var win := Window(xs, t, w);
    assert Constant(win);
    MeanConstant(win, win[0]);
  }

  /** A constant spread has no z-score at index `t`. */
  lemma ConstantSpreadNoZScoreAt(xs: seq<real>, w: nat, std: seq<real> -> real, c: real, t: nat)
    requires StdLaws(std)
    requires forall t :: 0 <= t < |xs| ==> xs[t] == c
    requires t < |xs|
    ensures ZScores(xs, w, std)[t].None?
  {
    if 2 <= w <= t + 1 {
      var win := Window(xs, t, w);
      assert Constant(win);
      assert RollingStd(xs, w, std)[t] == Some(std(win));
    }
  }

  /** A constant spread never has a z-score. */
  lemma ConstantSpreadHasNoZScore(xs: seq<real>, w: nat, std: seq<real> -> real, c: real)
    requires StdLaws(std)
    requires forall t :: 0 <= t < |xs| ==> xs[t] == c
    ensures forall t :: 0 <= t < |xs| ==> ZScores(xs, w, std)[t].None?
  {
    forall t | 0 <= t < |xs| ensures ZScores(xs, w, std)[t].None? {
      ConstantSpreadNoZScoreAt(xs, w, std, c, t);
    }
  }
}
