/**
 * Momentum/volume popularity scoring
 * (`TradeIdeaEngine.analyze_popularity_frequency`).
 *
 * For a price/volume series of at least three points, oldest first, the
 * baseline is the mean of every point but the last; momentum and volume
 * ratio are the last value over its baseline, or exactly 0 when that
 * baseline is 0; the score weighs momentum and volume surge 60/40.
 * Arithmetic is on `real`: floating-point rounding is not modelled.
 */
module Popularity {
  import opened Text

  datatype MarketPoint = MarketPoint(close: real, volume: real)

  /** One item of the history dictionary, in its insertion order. */
  datatype SeriesEntry = SeriesEntry(ticker: string, series: seq<MarketPoint>)

  datatype Option<T> = None | Some(value: T)

  /** Series shorter than this are skipped. */
  const MinHistory: nat := 3
  const MomentumWeight: real := 60.0
  const VolumeWeight: real := 40.0

  function Sum(xs: seq<real>): real {
    if xs == [] then 0.0 else Sum(xs[..|xs| - 1]) + xs[|xs| - 1]
  }

  /** `statistics.mean` of a non-empty list. */
  function Mean(xs: seq<real>): real
    requires |xs| > 0
  {
    Sum(xs) / |xs| as real
  }

  function Closes(history: seq<MarketPoint>): (closes: seq<real>)
    ensures |closes| == |history|
    ensures forall i :: 0 <= i < |history| ==> closes[i] == history[i].close
  {
    seq(|history|, i requires 0 <= i < |history| => history[i].close)
  }

  function Volumes(history: seq<MarketPoint>): (volumes: seq<real>)
    ensures |volumes| == |history|
    ensures forall i :: 0 <= i < |history| ==> volumes[i] == history[i].volume
  {
    seq(|history|, i requires 0 <= i < |history| => history[i].volume)
  }

  /** `last / baseline if baseline else 0`: the quotient whenever the
      baseline is nonzero, and exactly 0 (not an infinity) when it is 0. */
  function Ratio(last: real, baseline: real): (r: real)
    ensures baseline == 0.0 ==> r == 0.0
    ensures baseline != 0.0 ==> r * baseline == last
  {
    if baseline != 0.0 then last / baseline else 0.0
  }

  /** Last close over the mean of the earlier closes. */
  function Momentum(history: seq<MarketPoint>): real
    requires |history| >= 2
  {
    var closes := Closes(history);
    Ratio(closes[|closes| - 1], Mean(closes[..|closes| - 1]))
  }

  /** Last volume over the mean of the earlier volumes. */
  function VolumeRatio(history: seq<MarketPoint>): real
    requires |history| >= 2
  {
    var volumes := Volumes(history);
    Ratio(volumes[|volumes| - 1], Mean(volumes[..|volumes| - 1]))
  }

  /** The popularity score of one series that has enough points. */
  function PopularityScore(history: seq<MarketPoint>): real
    requires |history| >= MinHistory
  {
    (Momentum(history) - 1.0) * MomentumWeight + (VolumeRatio(history) - 1.0) * VolumeWeight
  }

  function Key(entry: SeriesEntry): string {
    Upper(entry.ticker)
  }

  predicate Scored(entry: SeriesEntry) {
    |entry.series| >= MinHistory
  }

  /** The series that determines key `k`: that of the last entry with enough
      points whose upper-cased ticker is `k`, since a later assignment to
      the same key overwrites an earlier one. */
  function Latest(history: seq<SeriesEntry>, k: string): (r: Option<seq<MarketPoint>>)
    ensures r.Some? ==> |r.value| >= MinHistory
  {
    if history == [] then None
    else
      var last := history[|history| - 1];
      if Scored(last) && Key(last) == k then Some(last.series) else Latest(history[..|history| - 1], k)
  }

  /** `analyze_popularity_frequency` over the dictionary's items in order:
      a key is present exactly when `Latest` finds a series for it, and it
      holds that series' score. */
  method AnalyzePopularityFrequency(history: seq<SeriesEntry>) returns (scores: map<string, real>)
    ensures forall k :: k in scores <==> Latest(history, k).Some?
    ensures forall k :: k in scores ==> scores[k] == PopularityScore(Latest(history, k).value)
  {
    scores := map[];
    for i := 0 to |history|
      invariant forall k :: k in scores <==> Latest(history[..i], k).Some?
      invariant forall k :: k in scores ==> scores[k] == PopularityScore(Latest(history[..i], k).value)
    {
      assert history[..i + 1][..i] == history[..i];
      var entry := history[i];
      assert history[..i + 1][i] == entry;
      if |entry.series| < MinHistory {
        continue;
      }
      scores := scores[Upper(entry.ticker) := PopularityScore(entry.series)];
    }
    assert history[..|history|] == history;
  }

  /** Every key comes from a scored entry, and every scored entry leaves a
      key: series shorter than `MinHistory` are exactly the ones omitted. */
  lemma {:induction false} LatestFound(history: seq<SeriesEntry>, k: string)
    ensures Latest(history, k).Some? <==>
            exists j :: 0 <= j < |history| && Scored(history[j]) && Key(history[j]) == k
  {
    if history != [] {
      var init := history[..|history| - 1];
      LatestFound(init, k);
      if exists j :: 0 <= j < |history| && Scored(history[j]) && Key(history[j]) == k {
        var j :| 0 <= j < |history| && Scored(history[j]) && Key(history[j]) == k;
        if j < |init| {
          assert init[j] == history[j];
        }
      }
      if exists j :: 0 <= j < |init| && Scored(init[j]) && Key(init[j]) == k {
        var j :| 0 <= j < |init| && Scored(init[j]) && Key(init[j]) == k;
        assert history[j] == init[j];
      }
    }
  }

  /** When no two entries share an upper-cased ticker, each scored entry's
      own series is the one its key is scored from. */
  lemma {:induction false} LatestOfDistinct(history: seq<SeriesEntry>, j: nat)
    requires j < |history| && Scored(history[j])
    requires forall a, b :: 0 <= a < b < |history| ==> Key(history[a]) != Key(history[b])
    ensures Latest(history, Key(history[j])) == Some(history[j].series)
  {
    var init := history[..|history| - 1];
    if j < |history| - 1 {
      assert Key(history[|history| - 1]) != Key(history[j]);
      assert init[j] == history[j];
      LatestOfDistinct(init, j);
    }
  }

  lemma {:induction false} SumConstant(xs: seq<real>, c: real)
    requires forall i :: 0 <= i < |xs| ==> xs[i] == c
    ensures Sum(xs) == |xs| as real * c
  {
    if xs != [] {
      SumConstant(xs[..|xs| - 1], c);
    }
  }

  lemma MeanConstant(xs: seq<real>, c: real)
    requires |xs| > 0
    requires forall i :: 0 <= i < |xs| ==> xs[i] == c
    ensures Mean(xs) == c
  {
    SumConstant(xs, c);
  }

  /** A flat series (every close the same nonzero value, every volume the
      same nonzero value) has momentum and volume ratio 1 and scores 0. */
  lemma FlatSeriesScoresZero(history: seq<MarketPoint>, close: real, volume: real)
    requires |history| >= MinHistory
    requires close != 0.0 && volume != 0.0
    requires forall i :: 0 <= i < |history| ==> history[i] == MarketPoint(close, volume)
    ensures PopularityScore(history) == 0.0
  {
    var closes, volumes := Closes(history), Volumes(history);
    MeanConstant(closes[..|closes| - 1], close);
    MeanConstant(volumes[..|volumes| - 1], volume);
    assert closes[|closes| - 1] == close && volumes[|volumes| - 1] == volume;
    assert close / close == 1.0 && volume / volume == 1.0;
    assert Momentum(history) == 1.0;
    assert VolumeRatio(history) == 1.0;
  }

  /** When every earlier close and every earlier volume is 0, both ratios are
      forced to 0, so the score is -100 whatever the last point is. */
  lemma ZeroBaselinesScore(history: seq<MarketPoint>)
    requires |history| >= MinHistory
    requires forall i :: 0 <= i < |history| - 1 ==> history[i] == MarketPoint(0.0, 0.0)
    ensures PopularityScore(history) == -100.0
  {
    var closes, volumes := Closes(history), Volumes(history);
    MeanConstant(closes[..|closes| - 1], 0.0);
    MeanConstant(volumes[..|volumes| - 1], 0.0);
  }

  lemma {:induction false} SumScaled(xs: seq<real>, ys: seq<real>, k: real)
    requires |xs| == |ys|
    requires forall i :: 0 <= i < |xs| ==> ys[i] == k * xs[i]
    ensures Sum(ys) == k * Sum(xs)
  {
    if xs != [] {
      SumScaled(xs[..|xs| - 1], ys[..|ys| - 1], k);
    }
  }

  lemma RatioScaled(last: real, baseline: real, k: real)
    requires k != 0.0
    ensures Ratio(k * last, k * baseline) == Ratio(last, baseline)
  {
    if baseline != 0.0 {
      assert k * baseline != 0.0;
      assert (k * last) / (k * baseline) == last / baseline;
    }
  }

  /** Momentum is a ratio: quoting every close in another unit (all closes
      times the same nonzero factor) leaves the score unchanged. */
  lemma ScoreIgnoresCloseUnit(history: seq<MarketPoint>, scaled: seq<MarketPoint>, k: real)
    requires |history| >= MinHistory && |scaled| == |history| && k != 0.0
    requires forall i :: 0 <= i < |history| ==>
               scaled[i] == MarketPoint(k * history[i].close, history[i].volume)
    ensures PopularityScore(scaled) == PopularityScore(history)
  {
    var n := |history|;
    var closes, scaledCloses := Closes(history), Closes(scaled);
    SumScaled(closes[..n - 1], scaledCloses[..n - 1], k);
    var baseline := Mean(closes[..n - 1]);
    assert Mean(scaledCloses[..n - 1]) == k * baseline;
    RatioScaled(closes[n - 1], baseline, k);
    assert Volumes(scaled) == Volumes(history);
  }
}
