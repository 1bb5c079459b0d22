# StocksAnalyzer: trade-idea engine and portfolio, modelled in Dafny

StocksAnalyzer turns social-media chatter and price/volume history into ranked
trade ideas, and keeps a small portfolio of positions with notes.  This
project models its two core files:

- `investing_app/ideas.py`, the `TradeIdeaEngine`:
  - **sentiment** (`analyze_social_posts`): split each post on whitespace;
    strip punctuation from both ends of every token and upper-case it; score
    the post as positive-word hits minus negative-word hits; give every
    tracked ticker that score once per mention.
  - **popularity** (`analyze_popularity_frequency`): for each series of at
    least three points, compare the last close and the last volume with the
    means of the earlier ones.  A zero baseline gives a ratio of 0.  The
    score weighs momentum and volume surge 60/40.
  - **synthesis** (`generate_trade_ideas`): average the two signals, with 0
    for a missing one.  Keep the tickers that reach the threshold
    (inclusive) and sort them by score, highest first.
- `investing_app/portfolio.py`, the `Portfolio` class: a table from the
  upper-cased ticker to a position.  Adding to an existing position blends
  the average cost by quantity; notes are appended to a position; the table
  reports its total cost basis and a snapshot.

Modules:

| file | module | what it models |
|---|---|---|
| `text.dfy` | `Text` | `str.split()`, `str.strip(chars)`, ASCII `upper`/`lower` |
| `sentiment.dfy` | `Sentiment` | word lists, tokens, post score, `analyze_social_posts` |
| `popularity.dfy` | `Popularity` | means, ratios, `analyze_popularity_frequency` |
| `synthesis.dfy` | `Synthesis` | combined score, stable sort, `generate_trade_ideas` |
| `portfolio.dfy` | `Portfolio` | `Position`, `InvestmentUpdate`, class `Portfolio` |
| `ideas_tests.dfy`, `portfolio_tests.dfy` | `IdeasTests`, `PortfolioTests` | the repository's unit-test scenarios |

How each part is modelled:

- **The engine is stateless.** Its three stages are module-level methods
  with the source's loops.  Each method is proved against a specification
  function:
  - `SentimentOf` and `Mentioned` for sentiment;
  - `Latest` and `PopularityScore` for popularity;
  - `Qualifies` and `IdeaFor` for synthesis.
- **The portfolio is a class.** Its field `positions: map<string, Position>`
  is reassigned by `AddPosition` and `AddUpdate`.  Its invariant `Valid()`
  is established by the constructor and preserved by `AddPosition` and
  `AddUpdate`: every key is upper-case, and every position has a positive
  quantity and average cost.  The ghost `TotalOf`
  sums the cost bases, and each method states how it changes that total.
- **Exceptions become results.** The source's `ValueError` and `KeyError` are
  the error values of a `Result`.
- **Arithmetic is exact.** It is done on `real`.  Sentiment is an integer
  (`SentimentOf`) and is returned as a `real`, like the source's `float`
  accumulator.
- **The popularity input is a list.** The `Dict[str, List[MarketPoint]]` is
  modelled as the list of its items in insertion order (`SeriesEntry`).
  Two keys that differ only in case therefore land on the same upper-cased
  key, and the later one with at least three points wins, as in the source:
  a shorter series is skipped and leaves the earlier score in place.  `Latest` captures this.

For the sample posts "AAPL bullish buy", "AAPL weak sell" and "NVDA strong
growth", the code gives AAPL a sentiment of 0 and NVDA a sentiment of 2,
because `strong` and `growth` are both in `POSITIVE_WORDS`
(`investing_app/ideas.py:9`).

## Model

| member | source | states |
|---|---|---|
| Text.WordLength | investing_app/ideas.py:37 | the length of the leading non-whitespace run: the run has no whitespace and is followed by whitespace or the end of the text |
| Text.Split | investing_app/ideas.py:37 | `str.split()` yields only non-empty words without whitespace |
| Text.SplitJoinSpaced | investing_app/ideas.py:37 | splitting words joined by single spaces gives back exactly those words |
| Text.Gaps | investing_app/ideas.py:37 | defines the whitespace runs of a text: the leading run, then one run after each word |
| Text.Interleave | investing_app/ideas.py:37 | defines the text rebuilt from its whitespace runs and its words, alternately |
| Text.GapsCount | investing_app/ideas.py:37 | there is one more whitespace run than there are words |
| Text.GapsAreSpace | investing_app/ideas.py:37 | every run between, before and after the words is all whitespace |
| Text.InnerGapsNonEmpty | investing_app/ideas.py:37 | every run between two words is non-empty, so the words are maximal |
| Text.InterleaveGaps | investing_app/ideas.py:37 | putting the runs and the words back together gives the text: nothing is lost or reordered |
| Text.SplitCoversText | investing_app/ideas.py:37 | for every text: leading whitespace, then the words separated by non-empty whitespace runs, then trailing whitespace, rebuilds the text exactly |
| Text.LeadingStripped | investing_app/ideas.py:37 | counts the leading strip characters: all counted ones are in the set and the next one is not |
| Text.TrailingStripped | investing_app/ideas.py:37 | counts the trailing strip characters: all counted ones are in the set and the one before is not |
| Text.Strip | investing_app/ideas.py:37 | the stripped token neither starts nor ends with one of `.,!?;:()[]{}"` |
| Text.StripIsSlice | investing_app/ideas.py:37 | stripping removes only set characters, and only at the two ends: the result is a slice of the token |
| Text.StripIdempotent | investing_app/ideas.py:37 | stripping a stripped token changes nothing |
| Text.StripKeepsCleanWord | investing_app/ideas.py:37 | a token that neither starts nor ends with a strip character is kept whole |
| Text.Upper | investing_app/ideas.py:37 | upper-casing keeps the length and maps every character |
| Text.Lower | investing_app/ideas.py:38-39 | lower-casing keeps the length and maps every character |
| Text.UpperIdempotent | investing_app/portfolio.py:32 | upper-casing an upper-cased ticker changes nothing, so stored keys are their own normal form |
| Text.LowerOfUpper | investing_app/ideas.py:37-39 | lower-casing the upper-cased token equals lower-casing the raw token, so word-list matching ignores case |
| Sentiment.HitsBounded | investing_app/ideas.py:9-10 | no word is both positive and negative, so hits never exceed the token count and a post's score is between -n and n for n tokens |
| Sentiment.Normalize | investing_app/ideas.py:37 | defines the token as matched: stripped of `.,!?;:()[]{}"` at both ends, then upper-cased |
| Sentiment.NormalizeIdempotent | investing_app/ideas.py:37 | normalising a normalised token changes nothing: stripping and upper-casing leave it as it is |
| Sentiment.Tokens | investing_app/ideas.py:37 | defines a post's tokens: one normalised token per whitespace-separated word, in order |
| Sentiment.PositiveHits | investing_app/ideas.py:38 | defines the number of tokens whose lower-case form is in `POSITIVE_WORDS` |
| Sentiment.NegativeHits | investing_app/ideas.py:39 | defines the number of tokens whose lower-case form is in `NEGATIVE_WORDS` |
| Sentiment.PostScore | investing_app/ideas.py:40 | defines a post's score: positive hits minus negative hits |
| Sentiment.Occurrences | investing_app/ideas.py:43 | defines how many tokens equal a given one |
| Sentiment.Contribution | investing_app/ideas.py:44-45 | defines what one post adds to a ticker: its score times the ticker's mention count |
| Sentiment.SentimentOf | investing_app/ideas.py:36-45 | defines a ticker's sentiment: the sum of all posts' contributions |
| Sentiment.Mentioned | investing_app/ideas.py:42-44 | defines when a tracked ticker gets a key: some token of some post equals it |
| Sentiment.Lookup | investing_app/ideas.py:34 | defines the `defaultdict(float)` read: the stored total, or 0 for an absent key |
| Sentiment.OccurrencesPositive | investing_app/ideas.py:42-43 | a token has a nonzero count exactly when it occurs |
| Sentiment.TrackedSet | investing_app/ideas.py:33 | every tracked ticker is in the set upper-cased, and the set holds nothing else |
| Sentiment.TrackedMentions | investing_app/ideas.py:42 | the mentions list holds each tracked token as often as the tokens do, and no untracked token |
| Sentiment.Tally | investing_app/ideas.py:43 | the `Counter` has a key exactly for each element, counting its occurrences |
| Sentiment.SentimentOfConcat | investing_app/ideas.py:36-45 | sentiment adds up over a concatenation of post lists, and a ticker is mentioned in the concatenation iff it is mentioned in one part |
| Sentiment.UnmentionedScoresZero | investing_app/ideas.py:42-45 | a ticker that no post mentions gets total 0 |
| Sentiment.PrefixStep | investing_app/ideas.py:36-45 | processing one more post adds that post's contribution, and mentioned-so-far grows by that post's tokens |
| Sentiment.MentionCount | investing_app/ideas.py:42-43 | the post's counter has an entry exactly for the tracked tickers among its tokens, holding their counts |
| Sentiment.AbsentContributesZero | investing_app/ideas.py:44-45 | a post that does not mention a ticker adds nothing to it |
| Sentiment.AddPost | investing_app/ideas.py:37-45 | one post adds score times mention count to each tracked ticker it mentions; every other entry stays as it was |
| Sentiment.AccumulateStep | investing_app/ideas.py:36-45 | one pass of the outer loop keeps the accumulator equal to the specification on the processed prefix |
| Sentiment.AnalyzeSocialPosts | investing_app/ideas.py:32-47 | keys are exactly the tracked tickers some post mentions (including those that net to 0), and each holds the sum over posts of score times mentions |
| Popularity.Closes | investing_app/ideas.py:60 | the closes in order, one per point |
| Popularity.Volumes | investing_app/ideas.py:61 | the volumes in order, one per point |
| Popularity.Ratio | investing_app/ideas.py:65-66 | a zero baseline gives exactly 0; otherwise ratio times baseline is the last value |
| Popularity.Sum | investing_app/ideas.py:63-64 | defines the sum of a list of values |
| Popularity.Mean | investing_app/ideas.py:63-64 | defines `statistics.mean` of a non-empty list: the sum over the count |
| Popularity.Momentum | investing_app/ideas.py:63-65 | defines momentum: the last close over the mean of the earlier closes, or 0 for a zero mean |
| Popularity.VolumeRatio | investing_app/ideas.py:64-66 | defines the volume ratio: the last volume over the mean of the earlier volumes, or 0 for a zero mean |
| Popularity.PopularityScore | investing_app/ideas.py:68 | defines the score: (momentum - 1) × 60 + (volume ratio - 1) × 40 |
| Popularity.Latest | investing_app/ideas.py:56-58 | a series found for a key always has at least three points |
| Popularity.AnalyzePopularityFrequency | investing_app/ideas.py:49-70 | a key is present exactly when some series of three or more points has that upper-cased ticker; it holds the score of the last such series |
| Popularity.LatestFound | investing_app/ideas.py:56-58 | short series are exactly the ones that add no key: a key is found iff some entry with at least three points has it |
| Popularity.LatestOfDistinct | investing_app/ideas.py:68 | when no two tickers collide once upper-cased, each scored ticker holds its own series' score |
| Popularity.SumConstant | investing_app/ideas.py:63-64 | the sum of n equal values c is n·c |
| Popularity.MeanConstant | investing_app/ideas.py:63-64 | the mean of equal values is that value |
| Popularity.FlatSeriesScoresZero | investing_app/ideas.py:60-68 | a flat series with nonzero close and volume has momentum 1 and volume ratio 1, and scores 0 |
| Popularity.ZeroBaselinesScore | investing_app/ideas.py:63-68 | zero earlier closes and volumes force both ratios to 0, so the score is -100 |
| Popularity.SumScaled | investing_app/ideas.py:63 | scaling every value scales the sum |
| Popularity.RatioScaled | investing_app/ideas.py:65 | scaling last value and baseline together leaves the ratio unchanged |
| Popularity.ScoreIgnoresCloseUnit | investing_app/ideas.py:60-68 | multiplying every close by the same nonzero factor leaves the score unchanged |
| Synthesis.SortedCons | investing_app/ideas.py:93 | an idea scoring at least the head of a sorted list can be put in front |
| Synthesis.ScoreOrZero | investing_app/ideas.py:82-83 | defines `scores.get(t, 0.0)`: the stored score, or 0 for a missing ticker |
| Synthesis.Combined | investing_app/ideas.py:84 | defines the combined score: half the social score plus half the popularity score |
| Synthesis.IdeaFor | investing_app/ideas.py:87-91 | defines the idea emitted for a ticker: its combined score and both component scores |
| Synthesis.Qualifies | investing_app/ideas.py:78-86 | defines which tickers become ideas: scored by either signal, with a combined score at least the threshold |
| Synthesis.Insert | investing_app/ideas.py:93 | defines insertion of an idea before the first one whose score is not greater |
| Synthesis.SortByScore | investing_app/ideas.py:93 | defines the stable descending sort by score, as repeated insertion |
| Synthesis.InsertSorted | investing_app/ideas.py:93 | inserting into a list sorted by descending score keeps it sorted |
| Synthesis.InsertPermutes | investing_app/ideas.py:93 | inserting adds exactly the inserted idea to the multiset |
| Synthesis.SortSortsAndPermutes | investing_app/ideas.py:93 | the sort returns a permutation of the ideas, sorted by descending score |
| Synthesis.TickersCons | investing_app/ideas.py:91 | prepending an idea adds its ticker; the tickers stay distinct iff they were distinct and the new one is new |
| Synthesis.InsertTickers | investing_app/ideas.py:93 | inserting keeps the tickers, adds the new one, and keeps them distinct |
| Synthesis.SortTickers | investing_app/ideas.py:93 | sorting keeps the set of tickers and their distinctness |
| Synthesis.TickersSnoc | investing_app/ideas.py:91 | appending an idea adds its ticker and keeps the tickers distinct when it is new |
| Synthesis.GenerateTradeIdeas | investing_app/ideas.py:72-93 | exactly the tickers scored by either signal whose average reaches the threshold (inclusive), once each, with 0 for a missing signal, sorted by score from highest to lowest; the threshold defaults to 1.0 (`DefaultMinScore`) |
| Portfolio.Position.CostBasis | investing_app/portfolio.py:22-24 | a positive quantity at a positive average cost has a positive cost basis |
| Portfolio.TotalOf | investing_app/portfolio.py:58-59 | defines the total cost basis: the sum of every stored position's cost basis |
| Portfolio.TotalOfRemove | investing_app/portfolio.py:58-59 | the total cost basis does not depend on the order of the positions |
| Portfolio.TotalOfUpdate | investing_app/portfolio.py:58-59 | replacing one position changes the total by exactly the change in its cost basis |
| Portfolio.Merge | investing_app/portfolio.py:38-44 | quantities add; the blended cost makes the cost basis grow by exactly quantity × cost; ticker and history stay; the average cost stays positive |
| Portfolio.MergeTotal | investing_app/portfolio.py:38-44 | merging into an existing position grows the total cost basis by exactly quantity × cost |
| Portfolio.InsertTotal | investing_app/portfolio.py:46-47 | storing a new position under an absent ticker grows the total by its cost basis |
| Portfolio.Portfolio.constructor | investing_app/portfolio.py:28-29 | a new portfolio is empty and valid |
| Portfolio.Portfolio.AddPosition | investing_app/portfolio.py:31-48 | refuses a non-positive quantity, then a non-positive cost, with nothing changed; otherwise the ticker is upper-cased, merged or inserted, no other ticker changes, and the total grows by quantity × cost |
| Portfolio.Portfolio.AddUpdate | investing_app/portfolio.py:50-56 | refuses an absent ticker with nothing changed; otherwise appends exactly one update to that position, changes nothing else, and keeps the total |
| Portfolio.Portfolio.TotalCostBasis | investing_app/portfolio.py:58-59 | the sum of the cost bases of all positions |
| Portfolio.Portfolio.Snapshot | investing_app/portfolio.py:61-77 | one view per stored ticker with its quantity, average cost, cost basis (positive for a valid portfolio) and its updates in order |
| IdeasTests.OpeningWordMentioned | investing_app/ideas.py:37-42 | a post that opens with an upper-case, punctuation-free word followed by whitespace mentions that word |
| IdeasTests.OpensWithTicker | tests/test_ideas.py:10-12 | a post opening with "AAPL" or "NVDA" followed by whitespace mentions that ticker |
| IdeasTests.TrackedSample | tests/test_ideas.py:14 | tracking ["AAPL", "NVDA"] tracks both |
| IdeasTests.SocialAnalysisScoresMentions | tests/test_ideas.py:7-16 | for three posts whose first opens with AAPL and last with NVDA, both tickers are scored |
| IdeasTests.RisingSeriesScore | tests/test_ideas.py:20-28 | the four-point series scores 60·(5/101) + 40·(41/99), between 19.53 and 19.54 |
| IdeasTests.GenerateIdeasFromRisingSeries | tests/test_ideas.py:18-31 | a social score of 2 plus the series' popularity makes AAPL an idea at threshold 1 |
| PortfolioTests.BlendedCost | tests/test_portfolio.py:9-14 | ten shares at 100 merged with ten at 120 give twenty at 110 |
| PortfolioTests.AddPositionAndBlendCost | tests/test_portfolio.py:9-14 | "aapl" then "AAPL" land in one position of twenty shares at 110 |
| PortfolioTests.AddUpdateRecordsNote | tests/test_portfolio.py:16-21 | the returned update carries the note and the position has exactly one update |

## Left out

- Floating point: all arithmetic is exact `real` arithmetic.  Rounding, `inf` and `NaN` are not modelled, and neither is the 1e-7 tolerance of `assertAlmostEqual`.
- Text handling is ASCII only.  Unicode whitespace for `split()` and Unicode case mapping for `upper()`/`lower()` are not modelled.
- Dictionary and set order:
  - the order in which `generate_trade_ideas` walks `set(social) | set(popularity)` is left open, so the order of ideas with equal scores is only stable relative to that walk;
  - the key order of the result maps and of `snapshot` is not modelled.
- Rationale text: the rationale keeps the two component scores; the formatted text (`:.2f`, fixed wording) is not modelled.
- Portfolio.Portfolio.AddUpdate: `datetime.utcnow()` is the clock; the timestamp is a parameter, and `isoformat()` is its stored rendering.  The default `source="manual"` is the parameter's default `ManualSource`; the timestamp parameter is placed before it so that it can stay last.
- Portfolio.Portfolio.AddPosition: the merge updates the stored position object in place and returns that same object.  The model stores a value, so aliasing between the returned position and the stored one is not captured.  The return values and the new table are stated exactly.
- `load_positions_from_sheet`: the portfolio tests call it, but `investing_app/portfolio.py` does not define it.  It is not part of this model.
- `investing_app/demo.py` (the command-line demo) is not part of this model.
- IdeasTests.SocialAnalysisScoresMentions: states the test's assertion (both tickers are scored).  The sentiment values of the sample posts (AAPL 0, NVDA 2) are not stated.
