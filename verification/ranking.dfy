/** `applyEnhancedScoring` (post_automation_integration.js): every post is given
    its six sub-scores and their weighted sum, and the scored posts are sorted by
    that sum, highest first, with JavaScript's stable sort. */
module Ranking {
  import opened Common
  import opened FeedModel
  import opened Scoring
  import opened StableSort

  /** The post with its relevance score and score components attached. */
  function ScorePost(user: User, post: Post, clock: Clock): ScoredPost {
    var c := ScoreComponents(user, post, clock);
    ScoredPost(post, Weighted(c), c)
  }

  /** The scored posts in input order (the `for ... of` loop before the sort). */
  function ScoreAll(posts: seq<Post>, user: User, clock: Clock): (r: seq<ScoredPost>)
    ensures |r| == |posts|
    ensures forall i :: 0 <= i < |posts| ==> r[i] == ScorePost(user, posts[i], clock)
    ensures forall i :: 0 <= i < |posts| ==> r[i].post == posts[i]
  {
    if |posts| == 0 then [] else [ScorePost(user, posts[0], clock)] + ScoreAll(posts[1..], user, clock)
  }

  function Relevance(s: ScoredPost): real {
    s.relevance
  }

  /** The scored posts sorted by relevance, highest first; posts with equal scores
      keep their input order, and every item carries the scores of its own post. */
  function ApplyEnhancedScoring(posts: seq<Post>, user: User, clock: Clock): (r: seq<ScoredPost>)
    ensures |r| == |posts|
    ensures multiset(r) == multiset(ScoreAll(posts, user, clock))
    ensures NonIncreasing(r, Relevance)
    ensures forall k :: WithKey(r, Relevance, k) == WithKey(ScoreAll(posts, user, clock), Relevance, k)
    ensures forall i :: 0 <= i < |r| ==>
              r[i].post in posts
              && r[i].components == ScoreComponents(user, r[i].post, clock)
              && r[i].relevance == Weighted(r[i].components)
              && r[i].components.base == BaseScore(user, r[i].post, clock.now)
  {
    var scored := ScoreAll(posts, user, clock);
    var r := SortDesc(scored, Relevance);
    RankedItems(posts, user, clock, r);
    r
  }

  /** Every item of a rearrangement of the scored posts is an input post with
      its own scores. */
  lemma RankedItems(posts: seq<Post>, user: User, clock: Clock, r: seq<ScoredPost>)
    requires multiset(r) == multiset(ScoreAll(posts, user, clock))
    ensures forall i :: 0 <= i < |r| ==> r[i].post in posts && r[i] == ScorePost(user, r[i].post, clock)
  {
    var scored := ScoreAll(posts, user, clock);
    forall i | 0 <= i < |r| ensures r[i].post in posts && r[i] == ScorePost(user, r[i].post, clock) {
      assert r[i] in multiset(scored);
      var j :| 0 <= j < |scored| && scored[j] == r[i];
      assert scored[j].post == posts[j];
    }
  }

  /** The posts of the ranking are the input posts, each as often as in the input. */
  lemma RankingKeepsPosts(posts: seq<Post>, user: User, clock: Clock, p: Post)
    ensures multiset(ScoreAll(posts, user, clock))[ScorePost(user, p, clock)] == multiset(posts)[p]
  {
    var scored := ScoreAll(posts, user, clock);
    var s := ScorePost(user, p, clock);
    assert s.post == p;
    CountByPost(posts, scored, s);
  }

  /** Counting items of a list that is a post-by-post image of `posts`. */
  lemma {:induction false} CountByPost(posts: seq<Post>, scored: seq<ScoredPost>, s: ScoredPost)
    requires |scored| == |posts|
    requires forall i :: 0 <= i < |posts| ==> scored[i].post == posts[i]
    requires forall i :: 0 <= i < |posts| && posts[i] == s.post ==> scored[i] == s
    ensures multiset(scored)[s] == multiset(posts)[s.post]
  {
    if |posts| > 0 {
      CountByPost(posts[1..], scored[1..], s);
      assert posts == [posts[0]] + posts[1..];
      assert scored == [scored[0]] + scored[1..];
    }
  }

  /** In a ranking, an item with a strictly higher score comes strictly earlier. */
  lemma HigherScoreFirst(r: seq<ScoredPost>, i: int, j: int)
    requires NonIncreasing(r, Relevance)
    requires 0 <= i < |r| && 0 <= j < |r| && r[i].relevance > r[j].relevance
    ensures i < j
  {
  }

  /** Of two ranked items, the one with the higher score is first. */
  lemma HigherOfTwoFirst(r: seq<ScoredPost>, x: ScoredPost, y: ScoredPost)
    requires NonIncreasing(r, Relevance)
    requires multiset(r) == multiset{y, x} && x.relevance > y.relevance
    ensures |r| == 2 && r[0] == x
  {
    assert |r| == |multiset(r)|;
    assert r == [r[0], r[1]];
    assert multiset{r[0], r[1]} == multiset{y, x};
    assert Relevance(r[0]) >= Relevance(r[1]);
  }

  /** The tags of a post enter only its base and interest scores: changing them
      leaves the social, location, engagement and contextual scores alone. */
  lemma TagsOnlyInBaseAndInterest(user: User, b: Post, tags: seq<string>, clock: Clock)
    ensures var a := b.(tags := tags);
            && SocialScore(user, a) == SocialScore(user, b)
            && LocationScore(user, a) == LocationScore(user, b)
            && EngagementScore(user, a) == EngagementScore(user, b)
            && ContextualScore(a, clock) == ContextualScore(b, clock)
  {
    var a := b.(tags := tags);
    assert CombinedText(a) == CombinedText(b);
    assert TimeContext(a) == TimeContext(b);
  }

  /** Adding a liked tag raises the base score by 10 and the interest score by 15
      and leaves the other sub-scores alone. */
  lemma LikedTagComponents(user: User, b: Post, t: string, clock: Clock)
    requires t in user.likedTags
    ensures var a := b.(tags := b.tags + [t]);
            && BaseScore(user, a, clock.now) == BaseScore(user, b, clock.now) + 10.0
            && InterestScore(user, a) == InterestScore(user, b) + 15
            && SocialScore(user, a) == SocialScore(user, b)
            && LocationScore(user, a) == LocationScore(user, b)
            && EngagementScore(user, a) == EngagementScore(user, b)
            && ContextualScore(a, clock) == ContextualScore(b, clock)
  {
    BaseScoreTag(user, b, t, clock.now);
    InterestScoreTag(user, b, t);
    TagsOnlyInBaseAndInterest(user, b, b.tags + [t], clock);
  }

  /** A post with one more liked tag beats an otherwise identical post: its base
      score is 10 higher and it is ranked first. */
  lemma LikedTagRanksFirst(user: User, b: Post, t: string, clock: Clock)
    requires t in user.likedTags
    ensures BaseScore(user, b.(tags := b.tags + [t]), clock.now) == BaseScore(user, b, clock.now) + 10.0
    ensures ApplyEnhancedScoring([b, b.(tags := b.tags + [t])], user, clock)[0].post == b.(tags := b.tags + [t])
  {
    LikedTagComponents(user, b, t, clock);
    LikedTagGap(user, b, t, clock);
    BetterOfTwoFirst(user, b.(tags := b.tags + [t]), b, clock);
  }

  /** Of two posts, the one with the higher relevance is ranked first, even when
      it comes second. */
  lemma BetterOfTwoFirst(user: User, x: Post, y: Post, clock: Clock)
    requires ScorePost(user, x, clock).relevance > ScorePost(user, y, clock).relevance
    ensures ApplyEnhancedScoring([y, x], user, clock)[0].post == x
  {
    var sx := ScorePost(user, x, clock);
    var sy := ScorePost(user, y, clock);
    assert ScoreAll([y, x], user, clock) == [sy, sx];
    assert multiset([sy, sx]) == multiset{sy, sx};
    HigherOfTwoFirst(ApplyEnhancedScoring([y, x], user, clock), sx, sy);
  }

  /** A further liked tag is worth 10 + 0.3 * 15 = 14.5 relevance points. */
  lemma LikedTagGap(user: User, b: Post, t: string, clock: Clock)
    requires t in user.likedTags
    ensures ScorePost(user, b.(tags := b.tags + [t]), clock).relevance == ScorePost(user, b, clock).relevance + 14.5
  {
    LikedTagComponents(user, b, t, clock);
  }
}
