/** The signal function of main.py:7-34 and 46: align the two price columns,
    hedge the second with the first, standardise the spread and map each
    z-score to a position. The two downloads are its inputs; the regression
    slope and the window deviation, which the code takes from statsmodels and
    pandas, are function parameters. */
module Signals {
  import opened Common
  import opened Alignment
  import opened Rolling
  import opened Position

  /** The returned frame of signals: its date index and its two columns. */
  datatype SignalFrame = SignalFrame(index: seq<int>, zscore: seq<Option<real>>, position: seq<int>)

  /** main.py:20-22: `beta`, the coefficient that the least-squares fit of the
      second column reports for the first column, as computed by `olsSlope`. */
  function HedgeRatio(panel: seq<Bar>, olsSlope: (seq<real>, seq<real>) -> real): real
  {
    olsSlope(Column1(panel), Column2(panel))
  }

  /** The z-score column the code computes for an aligned panel. */
  function PanelZScores(panel: seq<Bar>, window: nat, olsSlope: (seq<real>, seq<real>) -> real,
                        std: seq<real> -> real): (z: seq<Option<real>>)
    ensures |z| == |panel|
  {
    ZScores(Spread(panel, HedgeRatio(panel, olsSlope)), window, std)
  }

  /** main.py:7-34. An empty download fails with `DataError` before anything
      else. When no date has both prices the fit fails with `EmptyPanel`, and
      after it a negative window fails in the rolling step with `InvalidWindow`.
      Otherwise the frame has one row per aligned date, carries the z-score
      column, and each position is the pointwise rule applied to its own
      row's z-score. `exitThreshold` is accepted and never read. The last
      three parameters carry the code's defaults. */
  method PairTradingSignals(data1: seq<Obs>, data2: seq<Obs>,
                            olsSlope: (seq<real>, seq<real>) -> real, std: seq<real> -> real,
                            window: int := 30, entryThreshold: real := 2.0, exitThreshold: real := 0.0)
    returns (r: Result<SignalFrame>)
    ensures r.Err? <==> data1 == [] || data2 == [] || |Align(data1, data2).value| == 0 || window < 0
    ensures data1 == [] || data2 == [] ==> r == Err(DataError)
    ensures data1 != [] && data2 != [] && |Align(data1, data2).value| == 0 ==> r == Err(EmptyPanel)
    ensures data1 != [] && data2 != [] && |Align(data1, data2).value| > 0 && window < 0 ==>
      r == Err(InvalidWindow)
    ensures r.Ok? ==>
      var panel := Align(data1, data2).value;
      var z := PanelZScores(panel, window, olsSlope, std);
      && window >= 0
      && r.value.index == Index(panel)
      && r.value.zscore == z
      && |r.value.position| == |panel|
      && forall t :: 0 <= t < |panel| ==> r.value.position[t] == PositionAt(z[t], entryThreshold)
  {
    var aligned := Align(data1, data2);
    if aligned.Err? {
      return Err(aligned.error);
    }
    var panel := aligned.value;
    if |panel| == 0 {
      return Err(EmptyPanel);
    }
    if window < 0 {
      return Err(InvalidWindow);
    }
    var zscore := PanelZScores(panel, window, olsSlope, std);
    var position := Positions(zscore, entryThreshold);
    r := Ok(SignalFrame(Index(panel), zscore, position[..]));
  }

  /** Two downloads without a common date give an empty panel, which the fit
      rejects. */
  lemma DisjointDatesGiveEmptyPanel()
    ensures Align([Obs(1, Some(1.0))], [Obs(2, Some(2.0))]) == Ok([])
  {
    var rows := OuterJoin([Obs(1, Some(1.0))], [Obs(2, Some(2.0))]);
    assert rows == [Row(1, Some(1.0), None), Row(2, None, Some(2.0))];
    assert DropNa(rows) == [];
  }

  /** No position is taken while the rolling window is still filling. */
  lemma EarlyPositionsFlat(xs: seq<real>, w: nat, std: seq<real> -> real, entry: real, t: nat)
    requires t < |xs| && t + 1 < w
    ensures PositionAt(ZScores(xs, w, std)[t], entry) == 0
  {
    ZScoreUndefinedEarly(xs, w, std, t);
  }

  /** A window below two points never yields a deviation, so the code never
      trades with it. */
  lemma ShortWindowNeverTrades(panel: seq<Bar>, w: nat, olsSlope: (seq<real>, seq<real>) -> real,
                               std: seq<real> -> real, entry: real)
    requires w < 2
    ensures forall t :: 0 <= t < |panel| ==> PositionAt(PanelZScores(panel, w, olsSlope, std)[t], entry) == 0
  {
    var xs := Spread(panel, HedgeRatio(panel, olsSlope));
    forall t | 0 <= t < |panel| ensures PositionAt(PanelZScores(panel, w, olsSlope, std)[t], entry) == 0 {
      ZScoreUndefinedEarly(xs, w, std, t);
    }
  }

  /** When the second price is exactly `beta` times the first plus a constant
      and the fit recovers that `beta`, the spread is constant, no z-score is
      ever defined and every position is flat. */
  lemma ExactHedgeStaysFlat(panel: seq<Bar>, w: nat, olsSlope: (seq<real>, seq<real>) -> real,
                            std: seq<real> -> real, entry: real, c: real)
    requires StdLaws(std)
    requires forall t :: 0 <= t < |panel| ==>
      panel[t].second == HedgeRatio(panel, olsSlope) * panel[t].first + c
    ensures forall t :: 0 <= t < |panel| ==> PanelZScores(panel, w, olsSlope, std)[t].None?
    ensures forall t :: 0 <= t < |panel| ==> PositionAt(PanelZScores(panel, w, olsSlope, std)[t], entry) == 0
  {
    var beta := HedgeRatio(panel, olsSlope);
    ExactHedgeSpread(panel, beta, c);
    ConstantSpreadHasNoZScore(Spread(panel, beta), w, std, c);
  }
}
