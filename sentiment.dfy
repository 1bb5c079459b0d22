/**
 * Lexical sentiment scoring (`TradeIdeaEngine.analyze_social_posts`).
 *
 * A post's score is the number of its tokens that are positive words minus
 * the number that are negative words; every tracked ticker mentioned in the
 * post receives that score once per mention.  The specification is the
 * per-ticker sum `SentimentOf` and the predicate `Mentioned`; the method
 * `AnalyzeSocialPosts` follows the source's loop with a `Counter` per post
 * and a default-to-zero accumulator map.
 */
module Sentiment {
  import opened Text

  const PositiveWords: set<string> := {"buy", "bullish", "moon", "strong", "growth", "up", "beat", "upgrade"}
  const NegativeWords: set<string> := {"sell", "bearish", "weak", "down", "miss", "downgrade", "risk"}

  datatype SocialPost = SocialPost(text: string)

  /** A token as it is matched against tickers: stripped, then upper-cased. */
  function Normalize(word: string): string {
    Upper(Strip(word))
  }

  /** Normalising a normalised token changes nothing: its ends are already
      free of strip characters, and it is already upper-case. */
  lemma NormalizeIdempotent(word: string)
    ensures Normalize(Normalize(word)) == Normalize(word)
  {
    var r := Strip(word);
    if r != [] {
      UpperKeepsCleanEnds(r);
      StripKeepsCleanWord(Upper(r));
    }
    UpperIdempotent(r);
  }

  /** The normalised tokens of a post's text, in order. */
  function Tokens(text: string): seq<string> {
    var words := Split(text);
    seq(|words|, i requires 0 <= i < |words| => Normalize(words[i]))
  }

  /** Number of tokens whose lower-cased form is a positive word. */
  function PositiveHits(tokens: seq<string>): nat {
    if tokens == [] then 0
    else PositiveHits(tokens[..|tokens| - 1]) + (if Lower(tokens[|tokens| - 1]) in PositiveWords then 1 else 0)
  }

  /** Number of tokens whose lower-cased form is a negative word. */
  function NegativeHits(tokens: seq<string>): nat {
    if tokens == [] then 0
    else NegativeHits(tokens[..|tokens| - 1]) + (if Lower(tokens[|tokens| - 1]) in NegativeWords then 1 else 0)
  }

  function PostScore(tokens: seq<string>): int {
    PositiveHits(tokens) - NegativeHits(tokens)
  }

  /** No word is both positive and negative, so each token counts at most
      once and a post's score lies between minus and plus its token count. */
  lemma {:induction false} HitsBounded(tokens: seq<string>)
    ensures PositiveHits(tokens) + NegativeHits(tokens) <= |tokens|
    ensures -(|tokens| as int) <= PostScore(tokens) <= |tokens|
  {
    if tokens != [] {
      HitsBounded(tokens[..|tokens| - 1]);
      assert PositiveWords !! NegativeWords;
    }
  }

  /** Number of positions of `tokens` holding `t`. */
  function Occurrences(tokens: seq<string>, t: string): nat {
    if tokens == [] then 0
    else Occurrences(tokens[..|tokens| - 1], t) + (if tokens[|tokens| - 1] == t then 1 else 0)
  }

  lemma {:induction false} OccurrencesPositive(tokens: seq<string>, t: string)
    ensures Occurrences(tokens, t) > 0 <==> t in tokens
  {
    if tokens != [] {
      var init := tokens[..|tokens| - 1];
      assert tokens == init + [tokens[|tokens| - 1]];
      OccurrencesPositive(init, t);
    }
  }

  /** The tracked set: every tracked ticker upper-cased. */
  function TrackedSet(trackedTickers: seq<string>): (tracked: set<string>)
    ensures forall t :: t in trackedTickers ==> Upper(t) in tracked
    ensures forall u :: u in tracked ==> exists t :: t in trackedTickers && u == Upper(t)
  {
    set t | t in trackedTickers :: Upper(t)
  }

  /** The tokens that are tracked tickers, in order (the list `mentions`). */
  function TrackedMentions(tokens: seq<string>, tracked: set<string>): (mentions: seq<string>)
    ensures forall t :: Occurrences(mentions, t) == if t in tracked then Occurrences(tokens, t) else 0
  {
    if tokens == [] then []
    else
      var init, last := tokens[..|tokens| - 1], tokens[|tokens| - 1];
      var prev := TrackedMentions(init, tracked);
      if last in tracked then
        assert (prev + [last])[..|prev|] == prev;
        prev + [last]
      else
        prev
  }

  /** A sequence tallies to exactly the elements it holds. */
  function Tally(s: seq<string>): (counts: map<string, nat>)
    ensures forall t :: t in counts <==> t in s
    ensures forall t :: t in counts ==> counts[t] == Occurrences(s, t)
  {
    if s == [] then map[]
    else
      var init, last := s[..|s| - 1], s[|s| - 1];
      var c := Tally(init);
      assert forall t :: t in s <==> t in init || t == last by {
        assert s == init + [last];
      }
      forall t | t !in c
        ensures Occurrences(init, t) == 0
      {
        OccurrencesPositive(init, t);
      }
      c[last := (if last in c then c[last] else 0) + 1]
  }

  /** What one post adds to ticker `t`: its score times the mentions of `t`. */
  function Contribution(post: SocialPost, t: string): int {
    var tokens := Tokens(post.text);
    PostScore(tokens) * Occurrences(tokens, t)
  }

  /** The specification of a ticker's sentiment: the sum over all posts of
      each post's contribution. */
  function SentimentOf(posts: seq<SocialPost>, t: string): int {
    if posts == [] then 0
    else SentimentOf(posts[..|posts| - 1], t) + Contribution(posts[|posts| - 1], t)
  }

  /** Some token of some post equals `t`. */
  predicate Mentioned(posts: seq<SocialPost>, t: string) {
    exists i :: 0 <= i < |posts| && t in Tokens(posts[i].text)
  }

  /** Scoring a concatenation of post lists is scoring each list and adding
      per ticker; a ticker is mentioned in the concatenation iff it is
      mentioned in one of the parts. */
  lemma {:induction false} SentimentOfConcat(a: seq<SocialPost>, b: seq<SocialPost>, t: string)
    ensures SentimentOf(a + b, t) == SentimentOf(a, t) + SentimentOf(b, t)
    ensures Mentioned(a + b, t) <==> Mentioned(a, t) || Mentioned(b, t)
  {
    if b == [] {
      assert a + b == a;
    } else {
      var init := b[..|b| - 1];
      assert (a + b)[..|a + b| - 1] == a + init;
      assert (a + b)[|a + b| - 1] == b[|b| - 1];
      SentimentOfConcat(a, init, t);
    }
    if Mentioned(a + b, t) {
      var i :| 0 <= i < |a + b| && t in Tokens((a + b)[i].text);
      if i < |a| {
        assert a[i] == (a + b)[i];
      } else {
        assert b[i - |a|] == (a + b)[i];
      }
    }
    if Mentioned(a, t) {
      var i :| 0 <= i < |a| && t in Tokens(a[i].text);
      assert (a + b)[i] == a[i];
    }
    if Mentioned(b, t) {
      var i :| 0 <= i < |b| && t in Tokens(b[i].text);
      assert (a + b)[|a| + i] == b[i];
    }
  }

  /** A ticker no post mentions gets nothing from any post. */
  lemma {:induction false} UnmentionedScoresZero(posts: seq<SocialPost>, t: string)
    requires !Mentioned(posts, t)
    ensures SentimentOf(posts, t) == 0
  {
    if posts != [] {
      var init := posts[..|posts| - 1];
      assert !Mentioned(init, t);
      var tokens := Tokens(posts[|posts| - 1].text);
      OccurrencesPositive(tokens, t);
      assert Occurrences(tokens, t) == 0;
      assert Contribution(posts[|posts| - 1], t) == PostScore(tokens) * 0;
      UnmentionedScoresZero(init, t);
    }
  }

  /** Extending the processed prefix of the posts by one post. */
  lemma PrefixStep(posts: seq<SocialPost>, i: nat, t: string)
    requires i < |posts|
    ensures SentimentOf(posts[..i + 1], t) == SentimentOf(posts[..i], t) + Contribution(posts[i], t)
    ensures Mentioned(posts[..i + 1], t) <==> Mentioned(posts[..i], t) || t in Tokens(posts[i].text)
  {
    assert posts[..i + 1] == posts[..i] + [posts[i]];
    SentimentOfConcat(posts[..i], [posts[i]], t);
    assert Mentioned([posts[i]], t) <==> t in Tokens(posts[i].text) by {
      assert [posts[i]][0] == posts[i];
    }
  }

  /** The post's `Counter` of tracked mentions has an entry exactly for the
      tracked tickers among the post's tokens, holding their number of
      occurrences. */
  lemma MentionCount(tokens: seq<string>, tracked: set<string>, t: string)
    ensures var mentionCount := Tally(TrackedMentions(tokens, tracked));
            && (t in mentionCount <==> t in tracked && t in tokens)
            && (t in mentionCount ==> mentionCount[t] == Occurrences(tokens, t))
  {
    OccurrencesPositive(tokens, t);
    OccurrencesPositive(TrackedMentions(tokens, tracked), t);
  }

  /** A post that does not mention `t` contributes nothing to it. */
  lemma AbsentContributesZero(post: SocialPost, t: string)
    requires t !in Tokens(post.text)
    ensures Contribution(post, t) == 0
  {
    var tokens := Tokens(post.text);
    OccurrencesPositive(tokens, t);
    assert Contribution(post, t) == PostScore(tokens) * 0;
  }

  /** The accumulator's default-to-zero lookup (`defaultdict(float)`). */
  function Lookup(m: map<string, real>, t: string): real {
    if t in m then m[t] else 0.0
  }

  /** The body of the source's loop for one post: tokenise, score, count
      the tracked mentions and add score times count to each mentioned
      ticker's running total. */
  method AddPost(scores: map<string, real>, post: SocialPost, tracked: set<string>) returns (next: map<string, real>)
    requires forall t :: t in scores ==> t in tracked
    ensures forall t :: t in next <==> t in scores || (t in tracked && t in Tokens(post.text))
    ensures forall t :: t in next ==> next[t] == Lookup(scores, t) + Contribution(post, t) as real
  {
    var tokens := Tokens(post.text);
    var postScore := PostScore(tokens);
    var mentionCount := Tally(TrackedMentions(tokens, tracked));
    next := scores;
    var pending := mentionCount.Keys;
    while pending != {}
      invariant pending <= mentionCount.Keys
      invariant forall t :: t in next <==> t in scores || t in mentionCount.Keys - pending
      invariant forall t :: t in next ==>
                  next[t] == Lookup(scores, t) + (if t in mentionCount.Keys - pending then Contribution(post, t) as real else 0.0)
      decreases pending
    {
      var t :| t in pending;
      MentionCount(tokens, tracked, t);
      assert postScore * mentionCount[t] == Contribution(post, t);
      assert Lookup(next, t) == Lookup(scores, t);
      next := next[t := Lookup(next, t) + (postScore * mentionCount[t]) as real];
      pending := pending - {t};
    }
    forall t
      ensures t in next <==> t in scores || (t in tracked && t in tokens)
      ensures t in next ==> next[t] == Lookup(scores, t) + Contribution(post, t) as real
    {
      MentionCount(tokens, tracked, t);
      if t !in tokens {
        AbsentContributesZero(post, t);
      }
    }
  }

  /** One turn of the outer loop keeps, for ticker `t`, the correspondence
      between the accumulator and the processed prefix of the posts. */
  lemma AccumulateStep(posts: seq<SocialPost>, i: nat, tracked: set<string>,
                       prev: map<string, real>, next: map<string, real>, t: string)
    requires i < |posts|
    requires t in prev <==> t in tracked && Mentioned(posts[..i], t)
    requires t in prev ==> prev[t] == SentimentOf(posts[..i], t) as real
    requires t in next <==> t in prev || (t in tracked && t in Tokens(posts[i].text))
    requires t in next ==> next[t] == Lookup(prev, t) + Contribution(posts[i], t) as real
    ensures t in next <==> t in tracked && Mentioned(posts[..i + 1], t)
    ensures t in next ==> next[t] == SentimentOf(posts[..i + 1], t) as real
  {
    PrefixStep(posts, i, t);
    if t in next {
      if t !in prev {
        UnmentionedScoresZero(posts[..i], t);
      }
      assert Lookup(prev, t) == SentimentOf(posts[..i], t) as real;
    }
  }

  /** `analyze_social_posts`: the keys of the result are exactly the tracked
      tickers (upper-cased) that some token of some post equals, even when
      their total is 0, and each key maps to its `SentimentOf`. */
  method AnalyzeSocialPosts(posts: seq<SocialPost>, trackedTickers: seq<string>) returns (scores: map<string, real>)
    ensures forall t :: t in scores <==> t in TrackedSet(trackedTickers) && Mentioned(posts, t)
    ensures forall t :: t in scores ==> scores[t] == SentimentOf(posts, t) as real
  {
    var tracked := TrackedSet(trackedTickers);
    scores := map[];
    for i := 0 to |posts|
      invariant forall t :: t in scores <==> t in tracked && Mentioned(posts[..i], t)
      invariant forall t :: t in scores ==> scores[t] == SentimentOf(posts[..i], t) as real
    {
      ghost var prev := scores;
      scores := AddPost(scores, posts[i], tracked);
      forall t
        ensures t in scores <==> t in tracked && Mentioned(posts[..i + 1], t)
        ensures t in scores ==> scores[t] == SentimentOf(posts[..i + 1], t) as real
      {
        AccumulateStep(posts, i, tracked, prev, scores, t);
      }
    }
    assert posts[..|posts|] == posts;
  }
}
