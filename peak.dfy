/**
  The baseline and peak extractor of 2_SWV_peak.py (lines 19-59): a sliding-window search
  for the most linear stretch, with window starts ranging over the first 40% of the rows
  and each window the next 10 rows from its start; the straight baseline that window's fit
  extrapolates over every row; the first row of maximal difference current; and the peak
  height above the baseline there.

  sklearn's LinearRegression (fit and score) is not modelled: `fit` is any function from a
  window of rows to a slope, an intercept and an r2 score.
*/
module BaselinePeak {
  import opened Wrappers

  /** One row of the SWV curve: the staircase potential and the net (difference) current. */
  datatype Row = Row(vstep: real, idif: real)

  /** What fitting a line to a window yields: y = slope * x + intercept, scored by r2. */
  datatype Fit = Fit(slope: real, intercept: real, r2: real)

  /** The chosen baseline: the best window's line and score, and its potential range. */
  datatype Baseline = Baseline(slope: real, intercept: real, r2: real, xMin: real, xMax: real)

  /** The one way the baseline search fails: no scanned window scored an r2 above 0. */
  datatype BaselineError = NoPositiveFit

  /** The peak: its row, potential, raw current, baseline current and corrected height. */
  datatype PeakReport = PeakReport(index: nat, vstep: real, idif: real, baselineAtPeak: real, height: real)

  datatype Analysis = Analysis(baseline: Baseline, peak: PeakReport)

  /** Rows per window. */
  const WindowSize: nat := 10

  /**
    int(len * 0.4): window starts are taken from the first 40% of the rows, rounded down,
    so fewer than three rows leave nothing to scan.
  */
  function SearchLimit(n: nat): (limit: nat)
    ensures limit * 5 <= n * 2 < (limit + 1) * 5
    ensures limit <= n
    ensures limit > 0 <==> n >= 3
  {
    (n * 2) / 5
  }

  /** Window i: the rows i, i+1, ..., cut short by the end of the data. */
  function Window(rows: seq<Row>, i: nat): (window: seq<Row>)
    requires i <= |rows|
    ensures |window| == if i + WindowSize <= |rows| then WindowSize else |rows| - i
    ensures forall k :: 0 <= k < |window| ==> window[k] == rows[i + k]
  {
    rows[i .. if i + WindowSize <= |rows| then i + WindowSize else |rows|]
  }

  /**
    Every scanned window holds at least three rows: a start below int(len * 0.4) leaves
    more than 60% of the rows after it. So no scanned window is a single row, for which
    an r2 score is undefined.
  */
  lemma ScannedWindowsHaveThreeRows(rows: seq<Row>, i: nat)
    requires i < SearchLimit(|rows|)
    ensures |Window(rows, i)| >= 3
  {
  }

  /** The r2 score the fit gives window i. */
  function ScoreAt(rows: seq<Row>, fit: seq<Row> -> Fit, i: nat): real
    requires i <= |rows|
  {
    fit(Window(rows, i)).r2
  }

  /** The best score so far and the window that holds it (None while nothing beat 0). */
  datatype Best = Best(r2: real, start: Option<nat>)

  /**
    The search state after the first k window starts: it starts at score 0 with no window,
    and window i replaces the best only when its score is strictly greater. The script
    scans k = SearchLimit(|rows|) starts; the lemmas below hold for any k up to |rows|.
  */
  function Scan(rows: seq<Row>, fit: seq<Row> -> Fit, k: nat): (best: Best)
    requires k <= |rows|
    ensures best.start.None? ==> best.r2 == 0.0
    ensures best.start.Some? ==> best.start.value < k && best.r2 == ScoreAt(rows, fit, best.start.value)
  {
    if k == 0 then Best(0.0, None)
    else
      var previous := Scan(rows, fit, k - 1);
      var r2 := ScoreAt(rows, fit, k - 1);
      if r2 > previous.r2 then Best(r2, Some(k - 1)) else previous
  }

  /** The best score never decreases as the scan goes on, and never drops below 0. */
  lemma {:induction false} ScanNeverDecreases(rows: seq<Row>, fit: seq<Row> -> Fit, k: nat, m: nat)
    requires k <= m <= |rows|
    ensures 0.0 <= Scan(rows, fit, k).r2 <= Scan(rows, fit, m).r2
  {
    if k < m {
      ScanNeverDecreases(rows, fit, k, m - 1);
    } else if k > 0 {
      ScanNeverDecreases(rows, fit, k - 1, k - 1);
    }
  }

  /** After k starts the best score is at least every score seen, and at least 0. */
  lemma {:induction false} ScanIsMaximum(rows: seq<Row>, fit: seq<Row> -> Fit, k: nat)
    requires k <= |rows|
    ensures Scan(rows, fit, k).r2 >= 0.0
    ensures forall i :: 0 <= i < k ==> ScoreAt(rows, fit, i) <= Scan(rows, fit, k).r2
  {
    if k > 0 {
      ScanIsMaximum(rows, fit, k - 1);
    }
  }

  /**
    The window the scan keeps is the first one of maximal score: nothing is kept exactly
    when no score is above 0; otherwise the kept window scores above 0, at least as high as
    every scanned window, and strictly higher than every earlier one (ties keep the first).
  */
  lemma {:induction false} ScanSelectsFirstMaximum(rows: seq<Row>, fit: seq<Row> -> Fit, k: nat)
    requires k <= |rows|
    ensures Scan(rows, fit, k).start.None? <==> forall i :: 0 <= i < k ==> ScoreAt(rows, fit, i) <= 0.0
    ensures Scan(rows, fit, k).start.Some? ==>
      var s := Scan(rows, fit, k).start.value;
      && s < k
      && ScoreAt(rows, fit, s) > 0.0
      && (forall i :: 0 <= i < k ==> ScoreAt(rows, fit, i) <= ScoreAt(rows, fit, s))
      && (forall i :: 0 <= i < s ==> ScoreAt(rows, fit, i) < ScoreAt(rows, fit, s))
  {
    if k > 0 {
      ScanSelectsFirstMaximum(rows, fit, k - 1);
      ScanIsMaximum(rows, fit, k - 1);
      var previous := Scan(rows, fit, k - 1);
      if ScoreAt(rows, fit, k - 1) > previous.r2 {
        assert ScoreAt(rows, fit, k - 1) > 0.0;
      }
    }
  }

  /** The least potential of a non-empty stretch of rows. */
  function MinPotential(rows: seq<Row>): (x: real)
    requires |rows| > 0
    ensures exists k :: 0 <= k < |rows| && rows[k].vstep == x
    ensures forall k :: 0 <= k < |rows| ==> x <= rows[k].vstep
  {
    if |rows| == 1 then rows[0].vstep
    else
      var rest := MinPotential(rows[1..]);
      assert forall k :: 1 <= k < |rows| ==> rows[k] == rows[1..][k - 1];
      if rows[0].vstep <= rest then rows[0].vstep else rest
  }

  /** The greatest potential of a non-empty stretch of rows. */
  function MaxPotential(rows: seq<Row>): (x: real)
    requires |rows| > 0
    ensures exists k :: 0 <= k < |rows| && rows[k].vstep == x
    ensures forall k :: 0 <= k < |rows| ==> rows[k].vstep <= x
  {
    if |rows| == 1 then rows[0].vstep
    else
      var rest := MaxPotential(rows[1..]);
      assert forall k :: 1 <= k < |rows| ==> rows[k] == rows[1..][k - 1];
      if rows[0].vstep >= rest then rows[0].vstep else rest
  }

  /**
    The baseline that window s yields: its fit, and the potential range it spans, whose
    ends are the least and the greatest potential in the window.
  */
  function BaselineOf(rows: seq<Row>, fit: seq<Row> -> Fit, s: nat): (b: Baseline)
    requires s < |rows|
    ensures var window := Window(rows, s);
      && (forall k :: 0 <= k < |window| ==> b.xMin <= window[k].vstep <= b.xMax)
      && (exists k :: 0 <= k < |window| && window[k].vstep == b.xMin)
      && (exists k :: 0 <= k < |window| && window[k].vstep == b.xMax)
  {
    var window := Window(rows, s);
    var model := fit(window);
    Baseline(model.slope, model.intercept, model.r2, MinPotential(window), MaxPotential(window))
  }

  /** The outcome of the baseline search: the kept window's baseline, or the error. */
  function SelectBaseline(rows: seq<Row>, fit: seq<Row> -> Fit): Result<Baseline, BaselineError>
  {
    var best := Scan(rows, fit, SearchLimit(|rows|));
    match best.start
    case None => Failure(NoPositiveFit)
    case Some(s) => Success(BaselineOf(rows, fit, s))
  }

  /**
    Window s is the first of maximal score among the SearchLimit(|rows|) scanned windows,
    and that score is above 0.
  */
  predicate FirstBestWindow(rows: seq<Row>, fit: seq<Row> -> Fit, s: nat)
  {
    var limit := SearchLimit(|rows|);
    && s < limit
    && ScoreAt(rows, fit, s) > 0.0
    && (forall i :: 0 <= i < limit ==> ScoreAt(rows, fit, i) <= ScoreAt(rows, fit, s))
    && (forall i :: 0 <= i < s ==> ScoreAt(rows, fit, i) < ScoreAt(rows, fit, s))
  }

  /**
    The search fails exactly when no window scores above 0 (in particular with fewer than
    three rows); otherwise its baseline is the one of the first window of maximal score.
  */
  lemma SelectBaselineChoosesFirstBestWindow(rows: seq<Row>, fit: seq<Row> -> Fit)
    ensures var limit := SearchLimit(|rows|);
      SelectBaseline(rows, fit).Failure? <==> forall i :: 0 <= i < limit ==> ScoreAt(rows, fit, i) <= 0.0
    ensures SelectBaseline(rows, fit).Success? ==>
      exists s :: FirstBestWindow(rows, fit, s) && SelectBaseline(rows, fit).value == BaselineOf(rows, fit, s)
  {
    var limit := SearchLimit(|rows|);
    ScanSelectsFirstMaximum(rows, fit, limit);
    var best := Scan(rows, fit, limit);
    if best.start.Some? {
      var s := best.start.value;
      assert FirstBestWindow(rows, fit, s);
    }
  }

  /**
    The scan loop of lines 27-38: best_r2 starts at 0, best_model and baseline_x_range at
    nothing, and a window replaces them only with a strictly greater score.
  */
  method FindBaseline(rows: seq<Row>, fit: seq<Row> -> Fit) returns (result: Result<Baseline, BaselineError>)
    ensures result == SelectBaseline(rows, fit)
  {
    var limit := SearchLimit(|rows|);
    var bestR2 := 0.0;
    var bestModel: Option<Fit> := None;
    var xRange: Option<(real, real)> := None;
    ghost var bestStart: Option<nat> := None;
    for i := 0 to limit
      invariant Scan(rows, fit, i) == Best(bestR2, bestStart)
      invariant bestStart.None? ==> bestModel.None? && xRange.None?
      invariant bestStart.Some? ==>
        var b := BaselineOf(rows, fit, bestStart.value);
        bestModel == Some(Fit(b.slope, b.intercept, b.r2)) && xRange == Some((b.xMin, b.xMax))
    {
      var window := Window(rows, i);
      var model := fit(window);
      var r2 := model.r2;
      if r2 > bestR2 {
        bestR2 := r2;
        bestModel := Some(model);
        xRange := Some((MinPotential(window), MaxPotential(window)));
        bestStart := Some(i);
      }
    }
    if bestModel.None? {
      return Failure(NoPositiveFit);
    }
    var model := bestModel.value;
    result := Success(Baseline(model.slope, model.intercept, model.r2, xRange.value.0, xRange.value.1));
  }

  /** best_model.predict over every row: the baseline current at each row's potential. */
  function BaselineCurve(rows: seq<Row>, slope: real, intercept: real): (ys: seq<real>)
    ensures |ys| == |rows|
    ensures forall k :: 0 <= k < |rows| ==> ys[k] == slope * rows[k].vstep + intercept
  {
    seq(|rows|, k requires 0 <= k < |rows| => slope * rows[k].vstep + intercept)
  }

  /** The baseline is a straight line: between any two rows it rises by slope times the run. */
  lemma BaselineCurveIsStraight(rows: seq<Row>, slope: real, intercept: real, i: nat, j: nat)
    requires i < |rows| && j < |rows|
    ensures BaselineCurve(rows, slope, intercept)[j] - BaselineCurve(rows, slope, intercept)[i]
      == slope * (rows[j].vstep - rows[i].vstep)
  {
    var ys := BaselineCurve(rows, slope, intercept);
    assert ys[j] - ys[i] == slope * rows[j].vstep - slope * rows[i].vstep;
  }

  /**
    idxmax over Idif: the first row whose current is maximal. Every current is at most the
    one there, and every earlier current is strictly below it.
  */
  function PeakIndex(rows: seq<Row>): (k: nat)
    requires |rows| > 0
    ensures k < |rows|
    ensures forall j :: 0 <= j < |rows| ==> rows[j].idif <= rows[k].idif
    ensures forall j :: 0 <= j < k ==> rows[j].idif < rows[k].idif
  {
    if |rows| == 1 then 0
    else
      var front := rows[..|rows| - 1];
      var m := PeakIndex(front);
      assert forall j :: 0 <= j < |front| ==> front[j] == rows[j];
      if rows[|rows| - 1].idif > rows[m].idif then |rows| - 1 else m
  }

  /** The first maximum is unique: any row with PeakIndex's two properties is PeakIndex. */
  lemma PeakIndexIsUnique(rows: seq<Row>, k: nat)
    requires k < |rows|
    requires forall j :: 0 <= j < |rows| ==> rows[j].idif <= rows[k].idif
    requires forall j :: 0 <= j < k ==> rows[j].idif < rows[k].idif
    ensures PeakIndex(rows) == k
  {
  }

  /**
    Lines 51-59: the peak row, its potential and current, the baseline current there, and
    the height of the peak above the baseline.
  */
  function MeasurePeak(rows: seq<Row>, b: Baseline): (r: PeakReport)
    requires |rows| > 0
    ensures r.index < |rows|
    ensures r.vstep == rows[r.index].vstep && r.idif == rows[r.index].idif
    ensures forall j :: 0 <= j < |rows| ==> rows[j].idif <= r.idif
    ensures forall j :: 0 <= j < r.index ==> rows[j].idif < r.idif
    ensures r.baselineAtPeak == BaselineCurve(rows, b.slope, b.intercept)[r.index]
    ensures r.height == r.idif - (b.slope * r.vstep + b.intercept)
  {
    var k := PeakIndex(rows);
    var baseline := BaselineCurve(rows, b.slope, b.intercept);
    PeakReport(k, rows[k].vstep, rows[k].idif, baseline[k], rows[k].idif - baseline[k])
  }

  /** A baseline is only ever found for at least three rows, so there is a peak to measure. */
  lemma BaselineNeedsRows(rows: seq<Row>, fit: seq<Row> -> Fit)
    requires SelectBaseline(rows, fit).Success?
    ensures |rows| >= 3
  {
    ScanSelectsFirstMaximum(rows, fit, SearchLimit(|rows|));
  }

  /** The whole analysis: the baseline search, then the peak measured against it. */
  function Analyze(rows: seq<Row>, fit: seq<Row> -> Fit): (result: Result<Analysis, BaselineError>)
    ensures result.Failure? <==> SelectBaseline(rows, fit).Failure?
    ensures result.Success? ==>
      && |rows| >= 3
      && result.value.baseline == SelectBaseline(rows, fit).value
      && result.value.peak == MeasurePeak(rows, result.value.baseline)
  {
    match SelectBaseline(rows, fit)
    case Failure(e) => Failure(e)
    case Success(b) =>
      BaselineNeedsRows(rows, fit);
      Success(Analysis(b, MeasurePeak(rows, b)))
  }

  /**
    The script after loading the curve: the baseline search, then the peak. The result is
    the function Analyze of the rows and the fit, so running it twice gives the same report.
  */
  method AnalyzePeak(rows: seq<Row>, fit: seq<Row> -> Fit) returns (result: Result<Analysis, BaselineError>)
    ensures result == Analyze(rows, fit)
  {
    var found := FindBaseline(rows, fit);
    if found.Failure? {
      return Failure(found.error);
    }
    BaselineNeedsRows(rows, fit);
    result := Success(Analysis(found.value, MeasurePeak(rows, found.value)));
  }
}
