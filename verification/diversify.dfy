/** `applyDiversityAdjustment` (post_automation_integration.js): a ranking of more
    than three posts is split into the four type buckets, given a quota per type
    and interleaved; the posts of each type keep their ranked order.

    The quotas are clamped at the bucket sizes and a distribution whose capped
    shares are all 0 falls back to the bucket shares. Without these two
    corrections the interleaving loop of the source never stops on some inputs;
    `NinePlusOneNeverStops` and `Diversity.AllOtherDividesByZero` show them. */
module Diversify {
  import opened Common
  import opened FeedModel
  import opened Diversity
  import opened Interleave

  /** Lines 1029-1076 after `calculateTargetDistribution`: the quota of each
      type as the source computes it, from the corrected target distribution. */
  function SourceQuotas(user: User, g: Quad<seq<ScoredPost>>): (q: Quad<int>)
    requires TotalSize(g) > 0
    ensures NonNegativeCounts(q)
  {
    var d := TargetDistribution(user.engagementStats, Sizes(g));
    QuotaCountsNonNegative(TotalSize(g), d);
    QuotaCounts(TotalSize(g), d)
  }

  /** The quotas the corrected step uses: the source's, clamped at the size of
      each bucket, so that every quota can be honoured. */
  function Quotas(user: User, g: Quad<seq<ScoredPost>>): (q: Quad<int>)
    requires TotalSize(g) > 0
    ensures Fits(q, g)
    ensures forall t :: SourceQuotas(user, g).Get(t) <= |g.Get(t)| ==> q.Get(t) == SourceQuotas(user, g).Get(t)
  {
    var raw := SourceQuotas(user, g);
    ClampFits(raw, g);
    ClampToBuckets(raw, Sizes(g))
  }

  /** Clamping counts that are not negative at the bucket sizes gives quotas
      that fit, and leaves alone every count that already fits. */
  lemma ClampFits(q: Quad<int>, g: Quad<seq<ScoredPost>>)
    requires NonNegativeCounts(q)
    ensures Fits(ClampToBuckets(q, Sizes(g)), g)
    ensures forall t :: q.Get(t) <= |g.Get(t)| ==> ClampToBuckets(q, Sizes(g)).Get(t) == q.Get(t)
  {
    var sizes := Sizes(g);
    QuadFields(q);
    QuadFields(sizes);
    QuadFields(g);
    assert forall t :: sizes.Get(t) == |g.Get(t)|;
    assert forall t :: q.Get(t) >= 0;
  }

  /** When every source quota fits its bucket, the corrected step uses exactly
      the source's quotas. */
  lemma QuotasAsWritten(user: User, g: Quad<seq<ScoredPost>>)
    requires TotalSize(g) > 0
    requires forall t :: SourceQuotas(user, g).Get(t) <= |g.Get(t)|
    ensures Quotas(user, g) == SourceQuotas(user, g)
  {
    var q := Quotas(user, g);
    var raw := SourceQuotas(user, g);
    QuadFields(q);
    QuadFields(raw);
  }

  /** The buckets `groupPostsByType` builds, as a function of the posts. */
  function Buckets(posts: seq<ScoredPost>): (g: Quad<seq<ScoredPost>>)
    ensures forall t :: g.Get(t) == OfType(posts, t)
    ensures TotalSize(g) == |posts|
  {
    var g := Quad(OfType(posts, ProducerPost), OfType(posts, EventPost),
                  OfType(posts, UserPost), OfType(posts, OtherPost));
    TypesPartition(posts);
    QuadFields(g);
    g
  }

  /** Buckets built by `groupPostsByType` hold only posts of their own type. */
  lemma GroupedHomogeneous(posts: seq<ScoredPost>, g: Quad<seq<ScoredPost>>)
    requires forall t :: g.Get(t) == OfType(posts, t)
    ensures Homogeneous(g)
  {
    forall t ensures AllOfType(g.Get(t), t) {
      assert g.Get(t) == OfType(posts, t);
    }
  }

  /** The diversified ranking: three posts or fewer as they are; otherwise the
      round-robin of the type buckets under the corrected quotas. */
  function Diversified(ranked: seq<ScoredPost>, user: User): seq<ScoredPost> {
    if |ranked| <= 3 then ranked
    else RoundRobin(Buckets(ranked), Quotas(user, Buckets(ranked)))
  }

  /** The diversity step. The result is the round-robin of the type buckets:
      round after round, the next post of every type whose quota lasts, in the
      order producer, event, user, other. It holds the ranked posts, each once; the
      posts of every type are in their ranked order; the result opens with, for
      each type, its first `Quotas(user, ..)[t]` ranked posts, and ends with the
      rest in type order. Three posts or fewer are returned as they are. */
  method ApplyDiversityAdjustment(ranked: seq<ScoredPost>, user: User) returns (r: seq<ScoredPost>)
    ensures |ranked| <= 3 ==> r == ranked
    ensures |ranked| > 3 ==> r == RoundRobin(Buckets(ranked), Quotas(user, Buckets(ranked)))
    ensures multiset(r) == multiset(ranked) && |r| == |ranked|
    ensures forall t :: OfType(r, t) == OfType(ranked, t)
    ensures |ranked| > 3 ==>
              var q := Quotas(user, Buckets(ranked));
              && 0 <= SumInt(q) <= |r|
              && (forall t :: OfType(r[..SumInt(q)], t) == OfType(ranked, t)[..q.Get(t)])
              && r[SumInt(q)..] == Concat(Drop(Buckets(ranked), q))
  {
    if |ranked| <= 3 {
      return ranked;
    }
    var g := GroupPostsByType(ranked);
    assert g == Buckets(ranked) by {
      var b := Buckets(ranked);
      QuadFields(g);
      QuadFields(b);
    }
    GroupedHomogeneous(ranked, g);
    var quotas := Quotas(user, g);
    var steps;
    r, steps := Interleave.Interleave(g, quotas);
  }

  // ---------------------------------------------------------------------------
  // The source as written: a quota above its bucket

  /** The loop as written never stops on nine producer posts and one event post
      from a viewer without engagement statistics: the event quota is 2, its
      bucket holds 1, and the round-robin waits forever for a second event. */
  lemma NinePlusOneNeverStops(g: Quad<seq<ScoredPost>>, n: nat)
    requires Sizes(g) == Quad(9, 1, 0, 0)
    ensures TargetDistributionAsWritten(None, Sizes(g)).Some?
    ensures var q := QuotaCounts(10, TargetDistributionAsWritten(None, Sizes(g)).value);
            q == Quad(8, 2, 0, 0) && !Halted(Run(Start(g, q), TotalSize(g), n), TotalSize(g))
  {
    NinePlusOneQuotas(Sizes(g));
    var s := Start(g, Quad(8, 2, 0, 0));
    StartStuck(g);
    NeverHalts(s, TotalSize(g), EventPost, ProducerPost, n);
  }

  /** With quotas 8 and 2 on buckets of 9 and 1, the loop starts stuck: the
      event quota outruns its bucket while producer posts wait. */
  lemma StartStuck(g: Quad<seq<ScoredPost>>)
    requires Sizes(g) == Quad(9, 1, 0, 0)
    ensures Stuck(Start(g, Quad(8, 2, 0, 0)), TotalSize(g), EventPost, ProducerPost)
  {
    var q := Quad(8, 2, 0, 0);
    QuadFields(q);
    QuadFields(g);
  }

  /** Nine producer posts and one event post get the quotas 8 and 2 from the
      distribution as written. */
  lemma NinePlusOneQuotas(sizes: Quad<nat>)
    requires sizes == Quad(9, 1, 0, 0)
    ensures TargetDistributionAsWritten(None, sizes).Some?
    ensures QuotaCounts(10, TargetDistributionAsWritten(None, sizes).value) == Quad(8, 2, 0, 0)
  {
    CappedSumZero(None, sizes);
    assert TargetDistributionAsWritten(None, sizes).value == TargetDistribution(None, sizes);
    QuotaExceedsBucket();
  }
}
