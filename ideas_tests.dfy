/**
 * The engine's test scenarios (`tests/test_ideas.py`) stated about the
 * model: both tracked tickers of three sample posts are scored, and a
 * four-point rising series gives a ticker that becomes an idea.
 */
module IdeasTests {
  import opened Text
  import opened Sentiment
  import opened Popularity
  import opened Synthesis

  /** A post that opens with an upper-case, punctuation-free word, followed
      by the end of the text or by whitespace, mentions that word. */
  lemma OpeningWordMentioned(posts: seq<SocialPost>, i: nat, w: string, rest: string)
    requires i < |posts| && posts[i].text == w + rest
    requires w != [] && NoSpace(w) && Upper(w) == w
    requires w[0] !in StripChars && w[|w| - 1] !in StripChars
    requires rest == [] || IsSpace(rest[0])
    ensures Mentioned(posts, w)
  {
    var s := w + rest;
    WordLengthOfWord(w, rest);
    assert s[..|w|] == w;
    assert Split(s)[0] == w;
    StripKeepsCleanWord(w);
    assert Tokens(s)[0] == w;
  }

  /** A post that opens with "AAPL" or "NVDA" followed by whitespace
      mentions that ticker. */
  lemma OpensWithTicker(posts: seq<SocialPost>, i: nat, w: string, rest: string)
    requires w == "AAPL" || w == "NVDA"
    requires i < |posts| && posts[i].text == w + rest && (rest == [] || IsSpace(rest[0]))
    ensures Mentioned(posts, w)
  {
    assert NoSpace(w) && Upper(w) == w;
    OpeningWordMentioned(posts, i, w, rest);
  }

  lemma TrackedSample(tracked: seq<string>)
    requires tracked == ["AAPL", "NVDA"]
    ensures "AAPL" in TrackedSet(tracked) && "NVDA" in TrackedSet(tracked)
  {
    assert Upper("AAPL") == "AAPL" && Upper("NVDA") == "NVDA";
    assert tracked[0] == "AAPL" && tracked[1] == "NVDA";
  }

  /** `test_social_analysis_scores_mentions`: both tracked tickers are
      scored. */
  method SocialAnalysisScoresMentions(posts: seq<SocialPost>, first: string, last: string)
    returns (scores: map<string, real>)
    requires |posts| == 3
    requires posts[0].text == "AAPL" + first && (first == [] || IsSpace(first[0]))
    requires posts[2].text == "NVDA" + last && (last == [] || IsSpace(last[0]))
    ensures "AAPL" in scores && "NVDA" in scores
  {
    var tracked := ["AAPL", "NVDA"];
    OpensWithTicker(posts, 0, "AAPL", first);
    OpensWithTicker(posts, 2, "NVDA", last);
    TrackedSample(tracked);
    scores := AnalyzeSocialPosts(posts, tracked);
  }

  function RisingSeries(): seq<MarketPoint> {
    [MarketPoint(100.0, 100.0), MarketPoint(101.0, 98.0), MarketPoint(102.0, 99.0), MarketPoint(106.0, 140.0)]
  }

  /** The closes average 101 and the volumes 99 before the last point, so
      the score is 60 * (106/101 - 1) + 40 * (140/99 - 1), about 19.54. */
  lemma RisingSeriesScore()
    ensures PopularityScore(RisingSeries()) == 60.0 * (5.0 / 101.0) + 40.0 * (41.0 / 99.0)
    ensures 19.53 < PopularityScore(RisingSeries()) < 19.54
  {
    var h := RisingSeries();
    var closes, volumes := Closes(h), Volumes(h);
    assert closes[..3] == [100.0, 101.0, 102.0];
    assert [100.0, 101.0, 102.0][..2] == [100.0, 101.0];
    assert [100.0, 101.0][..1] == [100.0];
    assert Sum(closes[..3]) == 303.0;
    assert volumes[..3] == [100.0, 98.0, 99.0];
    assert [100.0, 98.0, 99.0][..2] == [100.0, 98.0];
    assert [100.0, 98.0][..1] == [100.0];
    assert Sum(volumes[..3]) == 297.0;
    assert Mean(closes[..3]) == 101.0;
    assert Mean(volumes[..3]) == 99.0;
    assert Momentum(h) == 106.0 / 101.0;
    assert VolumeRatio(h) == 140.0 / 99.0;
  }

  /** `test_generate_ideas`: with a social score of 2 and the rising
      series' popularity score, AAPL combines to about 10.77, above the
      threshold 1. */
  method GenerateIdeasFromRisingSeries() returns (ideas: seq<TradeIdea>)
    ensures exists i :: 0 <= i < |ideas| && ideas[i].ticker == "AAPL"
  {
    var popularity := AnalyzePopularityFrequency([SeriesEntry("AAPL", RisingSeries())]);
    assert Upper("AAPL") == "AAPL";
    assert Latest([SeriesEntry("AAPL", RisingSeries())], "AAPL") == Some(RisingSeries());
    RisingSeriesScore();
    ideas := GenerateTradeIdeas(map["AAPL" := 2.0], popularity, 1.0);
    assert Qualifies(map["AAPL" := 2.0], popularity, 1.0, "AAPL");
    assert "AAPL" in Tickers(ideas);
  }
}
