/** The enhanced feed route (post_automation_integration.js): once the viewer and
    the posts of the three databases are fetched, the response is a pure pipeline —
    the end-date filter, scoring and sort, the diversity step, and the first
    `limit` posts of the result. */
module FeedRoute {
  import opened Common
  import opened FeedModel
  import opened EndDateFilter
  import opened Ranking
  import opened Diversity
  import opened Diversify

  /** The JSON the route answers with. */
  datatype Response =
    | MissingUserId   // 400 'User ID is required'
    | UserNotFound    // 404 'User not found'
    | Feed(posts: seq<ScoredPost>, page: int, limit: int, total: int, hasMore: bool)

  /** The route once the database reads are done: `found` is what the user lookup
      returned, and `choice`, `rest` and `loisir` are the posts of the three
      databases. The feed is the first `limit` posts of the diversified ranking of
      the posts the end-date filter keeps, each with its own scores; every type's
      posts appear in their ranked order; `total` counts
      the kept posts and `hasMore` says whether they reach past this page. */
  method EnhancedFeed(userId: string, found: Option<User>, choice: seq<Post>, rest: seq<Post>,
                      loisir: seq<Post>, clock: Clock, page: nat, limit: nat) returns (r: Response)
    ensures r.MissingUserId? <==> userId == ""
    ensures r.UserNotFound? <==> userId != "" && found.None?
    ensures r.Feed? ==>
              var kept := FilterEnded(choice + rest + loisir, clock.now);
              && r.page == page && r.limit == limit
              && r.total == |kept|
              && (r.hasMore <==> |kept| > page * limit)
              && |r.posts| == (if limit < |kept| then limit else |kept|)
              && (forall i :: 0 <= i < |r.posts| ==>
                    r.posts[i].post in choice + rest + loisir
                    && Keep(r.posts[i].post, clock.now)
                    && r.posts[i] == ScorePost(found.value, r.posts[i].post, clock))
              && multiset(r.posts) <= multiset(ScoreAll(kept, found.value, clock))
              && (limit >= |kept| ==> multiset(r.posts) == multiset(ScoreAll(kept, found.value, clock)))
              && (forall t :: OfType(r.posts, t) <= OfType(ApplyEnhancedScoring(kept, found.value, clock), t))
    ensures r.Feed? ==>
              var ranked := ApplyEnhancedScoring(FilterEnded(choice + rest + loisir, clock.now), found.value, clock);
              r.posts <= Diversified(ranked, found.value)
  {
    if userId == "" {
      return MissingUserId;
    }
    if found.None? {
      return UserNotFound;
    }
    var user := found.value;
    var all := choice + rest + loisir;
    var kept := FilterEnded(all, clock.now);
    var ranked := ApplyEnhancedScoring(kept, user, clock);
    var diversified := DiversifyRanking(ranked, user);
    var n := if limit < |diversified| then limit else |diversified|;
    var shown := diversified[..n];
    ShownFacts(all, kept, ranked, diversified, n, shown, user, clock);
    r := Feed(shown, page, limit, |kept|, |kept| > page * limit);
  }

  /** The diversity step as the route uses it: the diversified ranking, a
      rearrangement of the ranking that keeps each type's ranked order. */
  method DiversifyRanking(ranked: seq<ScoredPost>, user: User) returns (d: seq<ScoredPost>)
    ensures d == Diversified(ranked, user)
    ensures multiset(d) == multiset(ranked)
    ensures forall t :: OfType(d, t) == OfType(ranked, t)
  {
    d := ApplyDiversityAdjustment(ranked, user);
  }

  /** The first `n` items of the diversified ranking are kept posts, each with
      its own scores, drawn from the scored kept posts, with each type's posts
      a prefix of that type's ranked posts. */
  lemma ShownFacts(all: seq<Post>, kept: seq<Post>, ranked: seq<ScoredPost>, diversified: seq<ScoredPost>,
                   n: nat, shown: seq<ScoredPost>, user: User, clock: Clock)
    requires kept == FilterEnded(all, clock.now)
    requires multiset(ranked) == multiset(ScoreAll(kept, user, clock))
    requires multiset(diversified) == multiset(ranked)
    requires forall t :: OfType(diversified, t) == OfType(ranked, t)
    requires n <= |diversified| && shown == diversified[..n]
    ensures |shown| == n
    ensures forall i :: 0 <= i < |shown| ==>
              shown[i].post in all && Keep(shown[i].post, clock.now)
              && shown[i] == ScorePost(user, shown[i].post, clock)
    ensures multiset(shown) <= multiset(ScoreAll(kept, user, clock))
    ensures n == |diversified| ==> multiset(shown) == multiset(ScoreAll(kept, user, clock))
    ensures forall t :: OfType(shown, t) <= OfType(ranked, t)
  {
    SliceKeeps(diversified, n);
    KeptPosts(all, kept, clock.now);
    RankedItems(kept, user, clock, ranked);
    ShownAreScored(shown, ranked, kept, all, user, clock);
    forall t ensures OfType(shown, t) <= OfType(ranked, t) {
      OfTypePrefix(diversified, n, t);
    }
  }

  /** `slice(0, n)` keeps a part of the multiset, and all of it when nothing is cut. */
  lemma SliceKeeps(d: seq<ScoredPost>, n: nat)
    requires n <= |d|
    ensures multiset(d[..n]) <= multiset(d)
    ensures n == |d| ==> multiset(d[..n]) == multiset(d)
  {
    assert d == d[..n] + d[n..];
  }

  /** The posts the filter keeps come from its input and pass `Keep`. */
  lemma KeptPosts(all: seq<Post>, kept: seq<Post>, today: int)
    requires kept == FilterEnded(all, today)
    ensures forall i :: 0 <= i < |kept| ==> kept[i] in all && Keep(kept[i], today)
  {
    forall i | 0 <= i < |kept| ensures kept[i] in all && Keep(kept[i], today) {
      assert kept[i] in kept;
    }
  }

  /** Every item drawn from the ranking is a kept post carrying its own scores. */
  lemma ShownAreScored(shown: seq<ScoredPost>, ranked: seq<ScoredPost>, kept: seq<Post>,
                       all: seq<Post>, user: User, clock: Clock)
    requires multiset(shown) <= multiset(ranked)
    requires forall i :: 0 <= i < |ranked| ==>
               ranked[i].post in kept && ranked[i] == ScorePost(user, ranked[i].post, clock)
    requires forall i :: 0 <= i < |kept| ==> kept[i] in all && Keep(kept[i], clock.now)
    ensures forall i :: 0 <= i < |shown| ==>
              shown[i].post in all && Keep(shown[i].post, clock.now)
              && shown[i] == ScorePost(user, shown[i].post, clock)
  {
    forall i | 0 <= i < |shown|
      ensures shown[i].post in all && Keep(shown[i].post, clock.now)
              && shown[i] == ScorePost(user, shown[i].post, clock)
    {
      assert shown[i] in multiset(ranked);
      var j :| 0 <= j < |ranked| && ranked[j] == shown[i];
      var k :| 0 <= k < |kept| && kept[k] == ranked[j].post;
    }
  }

  /** Taking a prefix of a sequence takes a prefix of the posts of each type. */
  lemma OfTypePrefix(d: seq<ScoredPost>, n: nat, t: PostType)
    requires n <= |d|
    ensures OfType(d[..n], t) <= OfType(d, t)
  {
    assert d == d[..n] + d[n..];
    OfTypeAppend(d[..n], d[n..], t);
  }
}
