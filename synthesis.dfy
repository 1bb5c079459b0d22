/**
 * Idea synthesis (`TradeIdeaEngine.generate_trade_ideas`).
 *
 * Every ticker scored by either signal is considered; a missing score
 * counts as 0; the two scores are averaged; tickers whose average reaches
 * the threshold (inclusive) become ideas, and the ideas are returned
 * sorted by score, highest first.
 */
module Synthesis {

  /** What the rationale text reports: the two component scores.  The text
      itself (two-decimal rendering) is not modelled. */
  datatype Rationale = Rationale(social: real, popularity: real)

  datatype TradeIdea = TradeIdea(ticker: string, score: real, rationale: Rationale)

  const SocialWeight: real := 0.5
  const PopularityWeight: real := 0.5

  /** The threshold used when the caller gives none. */
  const DefaultMinScore: real := 1.0

  /** `scores.get(t, 0.0)` */
  function ScoreOrZero(scores: map<string, real>, t: string): real {
    if t in scores then scores[t] else 0.0
  }

  /** The equal-weight combination of a ticker's two signals. */
  function Combined(social: map<string, real>, popularity: map<string, real>, t: string): real {
    ScoreOrZero(social, t) * SocialWeight + ScoreOrZero(popularity, t) * PopularityWeight
  }

  /** The idea the engine emits for ticker `t`. */
  function IdeaFor(social: map<string, real>, popularity: map<string, real>, t: string): TradeIdea {
    TradeIdea(t, Combined(social, popularity, t), Rationale(ScoreOrZero(social, t), ScoreOrZero(popularity, t)))
  }

  /** `t` is scored by some signal and its combined score reaches `minScore`. */
  predicate Qualifies(social: map<string, real>, popularity: map<string, real>, minScore: real, t: string) {
    (t in social || t in popularity) && Combined(social, popularity, t) >= minScore
  }

  function Tickers(ideas: seq<TradeIdea>): set<string> {
    set i | 0 <= i < |ideas| :: ideas[i].ticker
  }

  predicate DistinctTickers(ideas: seq<TradeIdea>) {
    forall i, j :: 0 <= i < j < |ideas| ==> ideas[i].ticker != ideas[j].ticker
  }

  /** Non-increasing by score. */
  predicate SortedByScore(ideas: seq<TradeIdea>) {
    forall i, j :: 0 <= i < j < |ideas| ==> ideas[i].score >= ideas[j].score
  }

  lemma SortedCons(head: TradeIdea, s: seq<TradeIdea>)
    requires SortedByScore(s)
    requires s == [] || head.score >= s[0].score
    ensures SortedByScore([head] + s)
  {
    var hs := [head] + s;
    forall i, j | 0 <= i < j < |hs| ensures hs[i].score >= hs[j].score {
      assert hs[j] == s[j - 1];
      if i > 0 {
        assert hs[i] == s[i - 1];
      } else {
        assert s[0].score >= s[j - 1].score;
      }
    }
  }

  /** Inserts `x` before the first idea whose score is not greater than
      its own. */
  function Insert(x: TradeIdea, sorted: seq<TradeIdea>): seq<TradeIdea> {
    if sorted == [] then [x]
    else if x.score >= sorted[0].score then [x] + sorted
    else [sorted[0]] + Insert(x, sorted[1..])
  }

  /** `sorted(ideas, key=score, reverse=True)`, as an insertion sort; equal
      scores keep their input order, as the source's stable sort does. */
  function SortByScore(ideas: seq<TradeIdea>): seq<TradeIdea> {
    if ideas == [] then [] else Insert(ideas[0], SortByScore(ideas[1..]))
  }

  lemma {:induction false} InsertSorted(x: TradeIdea, sorted: seq<TradeIdea>)
    requires SortedByScore(sorted)
    ensures SortedByScore(Insert(x, sorted))
    ensures Insert(x, sorted)[0] == x || (sorted != [] && Insert(x, sorted)[0] == sorted[0])
  {
    if sorted == [] {
    } else if x.score >= sorted[0].score {
      SortedCons(x, sorted);
    } else {
      var tail := sorted[1..];
      assert SortedByScore(tail);
      InsertSorted(x, tail);
      assert tail != [] ==> tail[0] == sorted[1];
      SortedCons(sorted[0], Insert(x, tail));
    }
  }

  lemma {:induction false} InsertPermutes(x: TradeIdea, sorted: seq<TradeIdea>)
    ensures multiset(Insert(x, sorted)) == multiset(sorted) + multiset{x}
  {
    if sorted != [] && x.score < sorted[0].score {
      var tail := sorted[1..];
      assert sorted == [sorted[0]] + tail;
      InsertPermutes(x, tail);
    }
  }

  /** Sorting yields a permutation of the ideas, non-increasing by score. */
  lemma {:induction false} SortSortsAndPermutes(ideas: seq<TradeIdea>)
    ensures SortedByScore(SortByScore(ideas))
    ensures multiset(SortByScore(ideas)) == multiset(ideas)
  {
    if ideas != [] {
      var tail := ideas[1..];
      assert ideas == [ideas[0]] + tail;
      SortSortsAndPermutes(tail);
      InsertSorted(ideas[0], SortByScore(tail));
      InsertPermutes(ideas[0], SortByScore(tail));
    }
  }

  lemma TickersCons(x: TradeIdea, s: seq<TradeIdea>)
    ensures Tickers([x] + s) == {x.ticker} + Tickers(s)
    ensures DistinctTickers([x] + s) <==> DistinctTickers(s) && x.ticker !in Tickers(s)
  {
    var xs := [x] + s;
    assert xs[0] == x;
    forall i | 0 <= i < |s| ensures xs[i + 1] == s[i] { }
    forall t | t in Tickers(xs) ensures t in {x.ticker} + Tickers(s) {
      var i :| 0 <= i < |xs| && xs[i].ticker == t;
      if i > 0 {
        assert s[i - 1] == xs[i];
      }
    }
    if DistinctTickers(xs) {
      forall i, j | 0 <= i < j < |s| ensures s[i].ticker != s[j].ticker {
        assert xs[i + 1] == s[i] && xs[j + 1] == s[j];
      }
      forall i | 0 <= i < |s| ensures s[i].ticker != x.ticker {
        assert xs[i + 1] == s[i];
      }
    }
    if DistinctTickers(s) && x.ticker !in Tickers(s) {
      forall i, j | 0 <= i < j < |xs| ensures xs[i].ticker != xs[j].ticker {
        assert xs[j] == s[j - 1];
        if i > 0 {
          assert xs[i] == s[i - 1];
        } else {
          assert s[j - 1].ticker in Tickers(s);
        }
      }
    }
  }

  /** Insertion keeps every ticker and adds that of the inserted idea; it
      keeps tickers distinct when the new one is not already present. */
  lemma {:induction false} InsertTickers(x: TradeIdea, sorted: seq<TradeIdea>)
    ensures Tickers(Insert(x, sorted)) == Tickers(sorted) + {x.ticker}
    ensures DistinctTickers(sorted) && x.ticker !in Tickers(sorted) ==> DistinctTickers(Insert(x, sorted))
  {
    if sorted == [] {
      TickersCons(x, []);
      assert [x] + [] == [x];
    } else if x.score >= sorted[0].score {
      TickersCons(x, sorted);
    } else {
      var rest := sorted[1..];
      assert sorted == [sorted[0]] + rest;
      TickersCons(sorted[0], rest);
      InsertTickers(x, rest);
      TickersCons(sorted[0], Insert(x, rest));
    }
  }

  /** Sorting keeps the set of tickers and keeps them distinct. */
  lemma {:induction false} SortTickers(ideas: seq<TradeIdea>)
    ensures Tickers(SortByScore(ideas)) == Tickers(ideas)
    ensures DistinctTickers(ideas) ==> DistinctTickers(SortByScore(ideas))
  {
    if ideas != [] {
      var rest := ideas[1..];
      assert ideas == [ideas[0]] + rest;
      TickersCons(ideas[0], rest);
      SortTickers(rest);
      InsertTickers(ideas[0], SortByScore(rest));
    }
  }

  lemma TickersSnoc(s: seq<TradeIdea>, x: TradeIdea)
    ensures Tickers(s + [x]) == Tickers(s) + {x.ticker}
    ensures DistinctTickers(s) && x.ticker !in Tickers(s) ==> DistinctTickers(s + [x])
  {
    var xs := s + [x];
    forall t | t in Tickers(s) ensures t in Tickers(xs) {
      var i :| 0 <= i < |s| && s[i].ticker == t;
      assert xs[i] == s[i];
    }
    forall t | t in Tickers(xs) ensures t in Tickers(s) + {x.ticker} {
      var i :| 0 <= i < |xs| && xs[i].ticker == t;
      if i < |s| {
        assert s[i] == xs[i];
      }
    }
    assert xs[|s|] == x;
  }

  /** `generate_trade_ideas`: exactly the qualifying tickers (the threshold
      included), each once, each with its combined score and both component
      scores, sorted by score from highest to lowest. */
  method GenerateTradeIdeas(social: map<string, real>, popularity: map<string, real>, minScore: real := DefaultMinScore)
    returns (ideas: seq<TradeIdea>)
    ensures SortedByScore(ideas)
    ensures forall t :: t in Tickers(ideas) <==> Qualifies(social, popularity, minScore, t)
    ensures forall i :: 0 <= i < |ideas| ==> ideas[i] == IdeaFor(social, popularity, ideas[i].ticker)
    ensures DistinctTickers(ideas)
  {
    var allTickers := social.Keys + popularity.Keys;
    var pending := allTickers;
    var found: seq<TradeIdea> := [];
    while pending != {}
      invariant pending <= allTickers
      invariant forall t :: t in Tickers(found) <==> t in allTickers - pending && Qualifies(social, popularity, minScore, t)
      invariant forall i :: 0 <= i < |found| ==> found[i] == IdeaFor(social, popularity, found[i].ticker)
      invariant DistinctTickers(found)
      decreases pending
    {
      var ticker :| ticker in pending;
      var s := ScoreOrZero(social, ticker);
      var p := ScoreOrZero(popularity, ticker);
      var total := s * SocialWeight + p * PopularityWeight;
      TickersSnoc(found, TradeIdea(ticker, total, Rationale(s, p)));
      if total >= minScore {
        found := found + [TradeIdea(ticker, total, Rationale(s, p))];
      }
      pending := pending - {ticker};
    }
    ideas := SortByScore(found);
    SortSortsAndPermutes(found);
    SortTickers(found);
    forall i | 0 <= i < |ideas| ensures ideas[i] == IdeaFor(social, popularity, ideas[i].ticker) {
      assert ideas[i] in multiset(found);
    }
  }
}
