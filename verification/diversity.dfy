/** The first three steps of the diversity adjustment (post_automation_integration.js):
    `groupPostsByType`, `calculateTargetDistribution`, and the quota counts at the
    start of `redistributePosts`. */
module Diversity {
  import opened Common
  import opened FeedModel
  import opened StableSort

  // ---------------------------------------------------------------------------
  // Grouping

  /** The bucket of a post: producer first (`target_type` or `producer_id`), then
      event (`target_type`, `event_id` or `intitulé`), then user (`user_id`), then other. */
  function TypeOf(p: Post): PostType {
    if p.targetType == "producer" || p.producerId != "" then ProducerPost
    else if p.targetType == "event" || p.eventId != "" || p.intitule != "" then EventPost
    else if p.userId != "" then UserPost
    else OtherPost
  }

  function ItemType(s: ScoredPost): PostType {
    TypeOf(s.post)
  }

  /** The items of type `t`, in their order in `s`. */
  function OfType(s: seq<ScoredPost>, t: PostType): (r: seq<ScoredPost>)
    ensures |r| <= |s|
    ensures forall i :: 0 <= i < |r| ==> ItemType(r[i]) == t
  {
    if |s| == 0 then []
    else (if ItemType(s[0]) == t then [s[0]] else []) + OfType(s[1..], t)
  }

  lemma {:induction false} OfTypeAppend(a: seq<ScoredPost>, b: seq<ScoredPost>, t: PostType)
    ensures OfType(a + b, t) == OfType(a, t) + OfType(b, t)
  {
    if |a| > 0 {
      OfTypeAppend(a[1..], b, t);
      var head := if ItemType(a[0]) == t then [a[0]] else [];
      assert (a + b)[1..] == a[1..] + b;
      assert OfType(a + b, t) == head + OfType(a[1..] + b, t);
      assert OfType(a, t) == head + OfType(a[1..], t);
      AppendAssoc(head, OfType(a[1..], t), OfType(b, t));
    } else {
      assert a + b == b;
    }
  }

  lemma AppendAssoc(x: seq<ScoredPost>, y: seq<ScoredPost>, z: seq<ScoredPost>)
    ensures x + (y + z) == (x + y) + z
  {
  }

  /** A list whose items all have type `t`. */
  predicate AllOfType(s: seq<ScoredPost>, t: PostType) {
    forall i :: 0 <= i < |s| ==> ItemType(s[i]) == t
  }

  lemma {:induction false} OfTypeSame(s: seq<ScoredPost>, t: PostType)
    requires AllOfType(s, t)
    ensures OfType(s, t) == s
  {
    if |s| > 0 {
      OfTypeSame(s[1..], t);
      assert s == [s[0]] + s[1..];
    }
  }

  lemma {:induction false} OfTypeOther(s: seq<ScoredPost>, t: PostType, u: PostType)
    requires AllOfType(s, t) && u != t
    ensures OfType(s, u) == []
  {
    if |s| > 0 {
      OfTypeOther(s[1..], t, u);
    }
  }

  function TotalSize(g: Quad<seq<ScoredPost>>): nat {
    |g.producer| + |g.event| + |g.user| + |g.other|
  }

  function Sizes(g: Quad<seq<ScoredPost>>): Quad<nat> {
    Quad(|g.producer|, |g.event|, |g.user|, |g.other|)
  }

  function GroupMultiset(g: Quad<seq<ScoredPost>>): multiset<ScoredPost> {
    multiset(g.producer) + multiset(g.event) + multiset(g.user) + multiset(g.other)
  }

  /** An item is kept by the filter of its own type, as often as it occurs, and
      by no other filter. */
  lemma {:induction false} OfTypeCount(s: seq<ScoredPost>, t: PostType, x: ScoredPost)
    ensures multiset(OfType(s, t))[x] == if ItemType(x) == t then multiset(s)[x] else 0
  {
    if |s| > 0 {
      OfTypeCount(s[1..], t, x);
      assert s == [s[0]] + s[1..];
    }
  }

  /** The four type filters split a list: every item is in the bucket of its own
      type and in no other, so the bucket sizes add up to the length. */
  lemma TypesPartition(s: seq<ScoredPost>)
    ensures GroupMultiset(Quad(OfType(s, ProducerPost), OfType(s, EventPost), OfType(s, UserPost), OfType(s, OtherPost)))
            == multiset(s)
    ensures |OfType(s, ProducerPost)| + |OfType(s, EventPost)| + |OfType(s, UserPost)| + |OfType(s, OtherPost)| == |s|
  {
    var g := Quad(OfType(s, ProducerPost), OfType(s, EventPost), OfType(s, UserPost), OfType(s, OtherPost));
    forall x ensures GroupMultiset(g)[x] == multiset(s)[x] {
      OfTypeCount(s, ProducerPost, x);
      OfTypeCount(s, EventPost, x);
      OfTypeCount(s, UserPost, x);
      OfTypeCount(s, OtherPost, x);
    }
    assert GroupMultiset(g) == multiset(s);
    assert |GroupMultiset(g)| == |s|;
  }

  /** `groupPostsByType`: each post is pushed onto the bucket of its type. */
  method GroupPostsByType(posts: seq<ScoredPost>) returns (g: Quad<seq<ScoredPost>>)
    ensures forall t :: g.Get(t) == OfType(posts, t)
    ensures TotalSize(g) == |posts|
    ensures GroupMultiset(g) == multiset(posts)
  {
    g := Quad([], [], [], []);
    for i := 0 to |posts|
      invariant forall t :: g.Get(t) == OfType(posts[..i], t)
    {
      GroupStep(posts, i, g);
      var t := ItemType(posts[i]);
      g := g.Set(t, g.Get(t) + [posts[i]]);
    }
    assert posts[..|posts|] == posts;
    GroupEnd(posts, g);
  }

  /** One push keeps every bucket equal to the posts of its type seen so far. */
  lemma GroupStep(posts: seq<ScoredPost>, i: int, g: Quad<seq<ScoredPost>>)
    requires 0 <= i < |posts|
    requires forall t :: g.Get(t) == OfType(posts[..i], t)
    ensures var t := ItemType(posts[i]);
            forall u :: g.Set(t, g.Get(t) + [posts[i]]).Get(u) == OfType(posts[..i + 1], u)
  {
    assert posts[..i + 1] == posts[..i] + [posts[i]];
    GroupPush(posts[..i], posts[i], g);
  }

  /** Pushing `x` onto the bucket of its type extends the grouping of `seen` to `seen + [x]`. */
  lemma GroupPush(seen: seq<ScoredPost>, x: ScoredPost, g: Quad<seq<ScoredPost>>)
    requires forall t :: g.Get(t) == OfType(seen, t)
    ensures var t := ItemType(x);
            forall u :: g.Set(t, g.Get(t) + [x]).Get(u) == OfType(seen + [x], u)
  {
    forall u ensures g.Set(ItemType(x), g.Get(ItemType(x)) + [x]).Get(u) == OfType(seen + [x], u) {
      OfTypeAppend(seen, [x], u);
      assert [x][1..] == [];
    }
  }

  /** Buckets equal to the four filters partition the posts. */
  lemma GroupEnd(posts: seq<ScoredPost>, g: Quad<seq<ScoredPost>>)
    requires forall t :: g.Get(t) == OfType(posts, t)
    ensures TotalSize(g) == |posts|
    ensures GroupMultiset(g) == multiset(posts)
  {
    QuadFields(g);
    assert g == Quad(OfType(posts, ProducerPost), OfType(posts, EventPost), OfType(posts, UserPost), OfType(posts, OtherPost));
    TypesPartition(posts);
  }

  // ---------------------------------------------------------------------------
  // Target distribution

  const DefaultDistribution: Quad<real> := Quad(0.35, 0.35, 0.25, 0.05)

  predicate NonNegative(d: Quad<real>) {
    d.producer >= 0.0 && d.event >= 0.0 && d.user >= 0.0 && d.other >= 0.0
  }

  /** Divides every entry by the sum of all four. */
  function Normalize(q: Quad<real>): (r: Quad<real>)
    requires SumReal(q) > 0.0
    ensures SumReal(r) == 1.0
    ensures forall t :: r.Get(t) * SumReal(q) == q.Get(t)
    ensures forall t :: (r.Get(t) > 0.0 <==> q.Get(t) > 0.0) && (r.Get(t) == 0.0 <==> q.Get(t) == 0.0)
    ensures NonNegative(q) ==> NonNegative(r)
  {
    var s := SumReal(q);
    var r := Quad(q.producer / s, q.event / s, q.user / s, q.other / s);
    QuotientSign(q.producer, s);
    QuotientSign(q.event, s);
    QuotientSign(q.user, s);
    QuotientSign(q.other, s);
    assert r.producer * s == q.producer && r.event * s == q.event;
    assert r.user * s == q.user && r.other * s == q.other;
    assert (r.producer + r.event + r.user + r.other) * s
           == r.producer * s + r.event * s + r.user * s + r.other * s;
    assert (SumReal(r) - 1.0) * s == 0.0;
    UnitFactor(SumReal(r), s);
    r
  }

  lemma QuotientSign(a: real, s: real)
    requires s > 0.0
    ensures (a / s > 0.0 <==> a > 0.0) && (a / s == 0.0 <==> a == 0.0)
  {
  }

  lemma UnitFactor(x: real, s: real)
    requires (x - 1.0) * s == 0.0 && s > 0.0
    ensures x == 1.0
  {
  }

  function StatsTotal(s: Quad<nat>): nat {
    s.producer + s.event + s.user + s.other
  }

  /** Lines 972-1010: the default split, or the viewer's engagement shares with
      producer and event raised to at least 0.15 and user to at least 0.10, then
      normalised. */
  function PreferredDistribution(stats: Option<Quad<nat>>): (d: Quad<real>)
    ensures SumReal(d) == 1.0 && NonNegative(d)
    ensures d.producer > 0.0 && d.event > 0.0 && d.user > 0.0
    ensures d.producer >= 0.15 / 1.4 && d.event >= 0.15 / 1.4 && d.user >= 0.1 / 1.4
    ensures stats.None? || StatsTotal(stats.value) == 0 ==> d == DefaultDistribution
    ensures d.other == 0.0 <==> stats.Some? && StatsTotal(stats.value) > 0 && stats.value.other == 0
  {
    if stats.Some? && StatsTotal(stats.value) > 0 then
      var floored := Floored(stats.value);
      FlooredSum(stats.value);
      NormalizedFloors(floored);
      Normalize(floored)
    else DefaultDistribution
  }

  /** Lines 991-999: the engagement shares, producer and event raised to at
      least 0.15 and user to at least 0.1. */
  function Floored(s: Quad<nat>): (f: Quad<real>)
    requires StatsTotal(s) > 0
    ensures f.producer >= 0.15 && f.event >= 0.15 && f.user >= 0.1 && f.other >= 0.0
    ensures f.other == 0.0 <==> s.other == 0
  {
    var total := StatsTotal(s) as real;
    QuotientSign(s.other as real, total);
    Quad(MaxReal(s.producer as real / total, 0.15), MaxReal(s.event as real / total, 0.15),
         MaxReal(s.user as real / total, 0.1), s.other as real / total)
  }

  /** With engagement history, each preferred share is its floored engagement
      share divided by the sum of the floored shares (lines 1002-1008). */
  lemma PreferredFromStats(s: Quad<nat>)
    requires StatsTotal(s) > 0
    ensures SumReal(Floored(s)) > 0.0
    ensures forall t :: PreferredDistribution(Some(s)).Get(t) == Floored(s).Get(t) / SumReal(Floored(s))
  {
    var f := Floored(s);
    assert PreferredDistribution(Some(s)) == Normalize(f);
    QuadFields(f);
  }

  /** More event than producer engagement never gives events the smaller
      preferred share, and the other way round. */
  lemma {:induction false} PreferredFollowsEngagement(s: Quad<nat>)
    requires StatsTotal(s) > 0
    ensures s.event >= s.producer ==> PreferredDistribution(Some(s)).event >= PreferredDistribution(Some(s)).producer
    ensures s.producer >= s.event ==> PreferredDistribution(Some(s)).producer >= PreferredDistribution(Some(s)).event
  {
    var f := Floored(s);
    var d := PreferredDistribution(Some(s));
    var total := StatsTotal(s) as real;
    PreferredFromStats(s);
    assert d.Get(ProducerPost) == f.Get(ProducerPost) / SumReal(f);
    assert d.Get(EventPost) == f.Get(EventPost) / SumReal(f);
    if s.event >= s.producer {
      QuotientOrder(s.event as real, s.producer as real, total);
      QuotientOrder(f.event, f.producer, SumReal(f));
    }
    if s.producer >= s.event {
      QuotientOrder(s.producer as real, s.event as real, total);
      QuotientOrder(f.producer, f.event, SumReal(f));
    }
  }

  lemma QuotientOrder(a: real, b: real, t: real)
    requires t > 0.0 && a >= b
    ensures a / t >= b / t
  {
  }

  /** Raising three of four engagement shares to at least 0.15, 0.15 and 0.1
      gives a sum of at most 1.4. */
  lemma FlooredSum(s: Quad<nat>)
    requires StatsTotal(s) > 0
    ensures var t := StatsTotal(s) as real;
            MaxReal(s.producer as real / t, 0.15) + MaxReal(s.event as real / t, 0.15)
            + MaxReal(s.user as real / t, 0.1) + s.other as real / t <= 1.4
  {
    var t := StatsTotal(s) as real;
    var p, e, u, o := s.producer as real, s.event as real, s.user as real, s.other as real;
    SharesAddUp(p, e, u, o, t);
    QuotientSign(p, t);
    QuotientSign(e, t);
    QuotientSign(u, t);
    QuotientSign(o, t);
    RaisedSum(p / t, e / t, u / t, o / t);
  }

  lemma SharesAddUp(p: real, e: real, u: real, o: real, t: real)
    requires t > 0.0 && p + e + u + o == t
    ensures p / t + e / t + u / t + o / t == 1.0
  {
    assert p / t + e / t + u / t + o / t == (p + e + u + o) / t;
  }

  lemma RaisedSum(p: real, e: real, u: real, o: real)
    requires p >= 0.0 && e >= 0.0 && u >= 0.0 && o >= 0.0 && p + e + u + o == 1.0
    ensures MaxReal(p, 0.15) + MaxReal(e, 0.15) + MaxReal(u, 0.1) + o <= 1.4
  {
  }

  /** Normalising a sum of at most 1.4 keeps each floored share above its
      floor divided by 1.4. */
  lemma NormalizedFloors(q: Quad<real>)
    requires q.producer >= 0.15 && q.event >= 0.15 && q.user >= 0.1 && q.other >= 0.0
    requires SumReal(q) <= 1.4
    ensures Normalize(q).producer >= 0.15 / 1.4
    ensures Normalize(q).event >= 0.15 / 1.4
    ensures Normalize(q).user >= 0.1 / 1.4
  {
    var n := Normalize(q);
    assert n.Get(ProducerPost) * SumReal(q) == q.producer;
    assert n.Get(EventPost) * SumReal(q) == q.event;
    assert n.Get(UserPost) * SumReal(q) == q.user;
    FloorShare(n.producer, q.producer, 0.15, SumReal(q));
    FloorShare(n.event, q.event, 0.15, SumReal(q));
    FloorShare(n.user, q.user, 0.1, SumReal(q));
  }

  /** A value of at least `floor`, divided by a sum of at most 1.4, keeps at
      least `floor / 1.4`. */
  lemma FloorShare(share: real, x: real, floor: real, sum: real)
    requires floor > 0.0 && x >= floor && 0.0 < sum <= 1.4 && share * sum == x
    ensures share >= floor / 1.4
  {
  }

  /** Lines 1012-1019: no type may be targeted above its share of the posts. */
  function Capped(d: Quad<real>, sizes: Quad<nat>): (c: Quad<real>)
    requires StatsTotal(sizes) > 0
    ensures forall t :: c.Get(t) == MinReal(d.Get(t), sizes.Get(t) as real / StatsTotal(sizes) as real)
  {
    var n := StatsTotal(sizes) as real;
    Quad(MinReal(d.producer, sizes.producer as real / n), MinReal(d.event, sizes.event as real / n),
         MinReal(d.user, sizes.user as real / n), MinReal(d.other, sizes.other as real / n))
  }

  /** Each type's share of the posts. */
  function Shares(sizes: Quad<nat>): (d: Quad<real>)
    requires StatsTotal(sizes) > 0
    ensures SumReal(d) == 1.0 && NonNegative(d)
  {
    Normalize(Quad(sizes.producer as real, sizes.event as real, sizes.user as real, sizes.other as real))
  }

  /** The capped targets add up to 0 exactly when every non-empty bucket is
      targeted at 0, which happens only when every post is "other" and the viewer
      has engagement history but none with "other" posts. */
  lemma CappedSumZero(stats: Option<Quad<nat>>, sizes: Quad<nat>)
    requires StatsTotal(sizes) > 0
    ensures SumReal(Capped(PreferredDistribution(stats), sizes)) >= 0.0
    ensures SumReal(Capped(PreferredDistribution(stats), sizes)) == 0.0
            <==> (stats.Some? && StatsTotal(stats.value) > 0 && stats.value.other == 0
                  && sizes.producer == 0 && sizes.event == 0 && sizes.user == 0)
  {
    var d := PreferredDistribution(stats);
    var c := Capped(d, sizes);
    var n := StatsTotal(sizes) as real;
    forall t ensures c.Get(t) >= 0.0 && (c.Get(t) == 0.0 <==> d.Get(t) == 0.0 || sizes.Get(t) == 0) {
      QuotientSign(sizes.Get(t) as real, n);
    }
    assert c.producer == c.Get(ProducerPost) && c.event == c.Get(EventPost);
    assert c.user == c.Get(UserPost) && c.other == c.Get(OtherPost);
  }

  /** `calculateTargetDistribution` as written: `None` stands for the NaN
      fractions produced by dividing by a capped sum of 0. */
  function TargetDistributionAsWritten(stats: Option<Quad<nat>>, sizes: Quad<nat>): (r: Option<Quad<real>>)
    requires StatsTotal(sizes) > 0
    ensures r.Some? ==> SumReal(r.value) == 1.0 && NonNegative(r.value)
    ensures r.None? <==> SumReal(Capped(PreferredDistribution(stats), sizes)) == 0.0
    ensures r.None? <==> stats.Some? && StatsTotal(stats.value) > 0 && stats.value.other == 0
                         && sizes.producer == 0 && sizes.event == 0 && sizes.user == 0
    ensures r.Some? ==> forall t :: r.value.Get(t) == Capped(PreferredDistribution(stats), sizes).Get(t)
                                                     / SumReal(Capped(PreferredDistribution(stats), sizes))
  {
    var c := Capped(PreferredDistribution(stats), sizes);
    CappedSumZero(stats, sizes);
    if SumReal(c) == 0.0 then None else Some(Normalize(c))
  }

  /** `calculateTargetDistribution` with the division by zero removed: when no
      capped target is left, the target is the actual mix of post types. */
  function TargetDistribution(stats: Option<Quad<nat>>, sizes: Quad<nat>): (d: Quad<real>)
    requires StatsTotal(sizes) > 0
    ensures SumReal(d) == 1.0 && NonNegative(d)
    ensures TargetDistributionAsWritten(stats, sizes).Some? ==> d == TargetDistributionAsWritten(stats, sizes).value
    ensures forall t :: sizes.Get(t) == 0 ==> d.Get(t) == 0.0
  {
    var w := TargetDistributionAsWritten(stats, sizes);
    if w.Some? then
      AsWrittenEmptyBuckets(stats, sizes);
      w.value
    else Shares(sizes)
  }

  /** The as-written distribution gives nothing to a type without posts. */
  lemma AsWrittenEmptyBuckets(stats: Option<Quad<nat>>, sizes: Quad<nat>)
    requires StatsTotal(sizes) > 0
    ensures TargetDistributionAsWritten(stats, sizes).Some? ==>
              forall t :: sizes.Get(t) == 0 ==> TargetDistributionAsWritten(stats, sizes).value.Get(t) == 0.0
  {
    var d := PreferredDistribution(stats);
    var c := Capped(d, sizes);
    CappedSumZero(stats, sizes);
    if SumReal(c) != 0.0 {
      var r := Normalize(c);
      forall t | sizes.Get(t) == 0 ensures r.Get(t) == 0.0 {
        assert d.Get(t) >= 0.0;
        assert sizes.Get(t) as real / StatsTotal(sizes) as real == 0.0;
        assert c.Get(t) == 0.0;
      }
    }
  }

  /** The capped targets respect each type's share of the posts, but
      renormalising can push a type above it: with 9 producer posts, 1 event post
      and no engagement history the event target ends at 2/9, above its 1/10 share. */
  lemma RenormalisationExceedsShare()
    ensures forall t :: Capped(DefaultDistribution, Quad(9, 1, 0, 0)).Get(t) <= Quad(9, 1, 0, 0).Get(t) as real / 10.0
    ensures TargetDistribution(None, Quad(9, 1, 0, 0)) == Quad(7.0 / 9.0, 2.0 / 9.0, 0.0, 0.0)
    ensures TargetDistribution(None, Quad(9, 1, 0, 0)).event > 1.0 / 10.0
  {
    var c := Capped(DefaultDistribution, Quad(9, 1, 0, 0));
    assert c == Quad(0.35, 0.1, 0.0, 0.0);
    assert SumReal(c) == 0.45;
  }

  /** All posts "other" and no engagement with "other" posts: the as-written
      target has no defined value (0 / 0). */
  lemma AllOtherDividesByZero()
    ensures TargetDistributionAsWritten(Some(Quad(3, 0, 0, 0)), Quad(0, 0, 0, 4)).None?
  {
    CappedSumZero(Some(Quad(3, 0, 0, 0)), Quad(0, 0, 0, 4));
  }

  // ---------------------------------------------------------------------------
  // Quota counts

  /** `Math.round(totalPosts * distribution[key])` for every type. */
  function RoundedCounts(total: nat, d: Quad<real>): Quad<int> {
    var n := total as real;
    Quad(Round(n * d.producer), Round(n * d.event), Round(n * d.user), Round(n * d.other))
  }

  /** `Math.floor(counts[key] * factor)` with `factor = totalPosts / countSum`. */
  function ScaledDown(counts: Quad<int>, total: nat): Quad<int>
    requires SumInt(counts) > 0
  {
    var f := total as real / SumInt(counts) as real;
    Quad((counts.producer as real * f).Floor, (counts.event as real * f).Floor,
         (counts.user as real * f).Floor, (counts.other as real * f).Floor)
  }

  /** Scaling down then flooring never exceeds the total, and loses less than
      one post per type. */
  lemma ScaledDownBounds(counts: Quad<int>, total: nat)
    requires SumInt(counts) > 0
    ensures total - 4 < SumInt(ScaledDown(counts, total)) <= total
  {
    var s := SumInt(counts) as real;
    var f := total as real / s;
    var sc := ScaledDown(counts, total);
    assert counts.producer as real * f + counts.event as real * f + counts.user as real * f
           + counts.other as real * f == s * f;
    assert s * f == total as real;
  }

  /** How far a type's count falls short of its target fraction. */
  function Gap(d: Quad<real>, counts: Quad<int>, total: nat, t: PostType): real
    requires total > 0
  {
    d.Get(t) - counts.Get(t) as real / total as real
  }

  /** `for (i = 0; i < diff; i++) counts[order[i % order.length]]++`, from `i` on. */
  function TopUp(counts: Quad<int>, order: seq<PostType>, diff: nat, i: nat): (r: Quad<int>)
    requires |order| > 0
    ensures i <= diff ==> SumInt(r) == SumInt(counts) + (diff - i)
    ensures forall t :: r.Get(t) >= counts.Get(t)
    decreases diff - i
  {
    if i >= diff then counts
    else
      var t := order[i % |order|];
      TopUp(counts.Set(t, counts.Get(t) + 1), order, diff, i + 1)
  }

  /** With at most one round over distinct types, the top-up adds exactly one to
      each of the first `diff` types of the order and nothing to the others. */
  lemma {:induction false} TopUpOnce(counts: Quad<int>, order: seq<PostType>, diff: nat, i: nat, t: PostType)
    requires |order| > 0 && i <= diff <= |order|
    requires forall a, b :: 0 <= a < b < |order| ==> order[a] != order[b]
    ensures TopUp(counts, order, diff, i).Get(t) == counts.Get(t) + (if t in order[i..diff] then 1 else 0)
    decreases diff - i
  {
    if i < diff {
      var u := order[i % |order|];
      assert i % |order| == i;
      TopUpOnce(counts.Set(u, counts.Get(u) + 1), order, diff, i + 1, t);
      assert order[i..diff] == [u] + order[i + 1..diff];
      if t == u {
        assert t !in order[i + 1..diff];
      }
    }
  }

  /** The post types ordered by decreasing gap, ties in declaration order. */
  function GapOrder(d: Quad<real>, counts: Quad<int>, total: nat): (order: seq<PostType>)
    requires total > 0
    ensures multiset(order) == multiset(TypeOrder) && |order| == 4
  {
    SortDesc(TypeOrder, t => Gap(d, counts, total, t))
  }

  /** The types of `GapOrder` come by decreasing gap. */
  lemma GapOrderSorted(d: Quad<real>, counts: Quad<int>, total: nat, i: int, j: int)
    requires total > 0 && 0 <= i <= j < 4
    ensures Gap(d, counts, total, GapOrder(d, counts, total)[i]) >= Gap(d, counts, total, GapOrder(d, counts, total)[j])
  {
    var key := t => Gap(d, counts, total, t);
    assert NonIncreasing(SortDesc(TypeOrder, key), key);
  }

  /** `diff` more posts, handed out one by one in decreasing order of gap. */
  function TopUpByGap(scaled: Quad<int>, diff: nat, total: nat, d: Quad<real>): (q: Quad<int>)
    requires total > 0
    ensures SumInt(q) == SumInt(scaled) + diff
    ensures forall t :: q.Get(t) >= scaled.Get(t)
  {
    TopUp(scaled, GapOrder(d, scaled, total), diff, 0)
  }

  /** Lines 1041-1076: the rounded counts, scaled down and topped up to exactly
      `total` when they add up to more than `total`. */
  function QuotaCounts(total: nat, d: Quad<real>): (q: Quad<int>)
    requires total > 0
    ensures SumInt(RoundedCounts(total, d)) > total ==> SumInt(q) == total
    ensures SumInt(RoundedCounts(total, d)) <= total ==> q == RoundedCounts(total, d)
  {
    Rebalance(RoundedCounts(total, d), total, d)
  }

  /** The counts unchanged when they add up to at most `total`; otherwise scaled
      down and topped up in the order of `GapOrder`. */
  function Rebalance(counts: Quad<int>, total: nat, d: Quad<real>): (q: Quad<int>)
    requires total > 0
    ensures SumInt(counts) > total ==> SumInt(q) == total
    ensures SumInt(counts) <= total ==> q == counts
  {
    if SumInt(counts) > total then
      var scaled := ScaledDown(counts, total);
      ScaledDownBounds(counts, total);
      var diff := total - SumInt(scaled);
      if diff > 0 then TopUpByGap(scaled, diff, total, d) else scaled
    else counts
  }

  predicate NonNegativeCounts(q: Quad<int>) {
    q.producer >= 0 && q.event >= 0 && q.user >= 0 && q.other >= 0
  }

  /** Non-negative target fractions give non-negative quotas. */
  lemma QuotaCountsNonNegative(total: nat, d: Quad<real>)
    requires total > 0 && NonNegative(d)
    ensures NonNegativeCounts(QuotaCounts(total, d))
  {
    var rounded := RoundedCounts(total, d);
    var n := total as real;
    assert n * d.producer >= 0.0 && n * d.event >= 0.0 && n * d.user >= 0.0 && n * d.other >= 0.0;
    RebalanceNonNegative(rounded, total, d);
  }

  lemma RebalanceNonNegative(counts: Quad<int>, total: nat, d: Quad<real>)
    requires total > 0 && NonNegativeCounts(counts)
    ensures NonNegativeCounts(Rebalance(counts, total, d))
  {
    if SumInt(counts) > total {
      var scaled := ScaledDown(counts, total);
      var q := Rebalance(counts, total, d);
      forall t ensures q.Get(t) >= 0 {
        QuotaScaledNonNegative(counts, total, t);
      }
      assert q.producer == q.Get(ProducerPost) && q.event == q.Get(EventPost);
      assert q.user == q.Get(UserPost) && q.other == q.Get(OtherPost);
    }
  }

  lemma QuotaScaledNonNegative(rounded: Quad<int>, total: nat, t: PostType)
    requires SumInt(rounded) > 0 && NonNegativeCounts(rounded)
    ensures ScaledDown(rounded, total).Get(t) >= 0
  {
    var f := total as real / SumInt(rounded) as real;
    assert f >= 0.0;
    assert rounded.Get(t) as real * f >= 0.0;
  }

  /** When the counts overshoot, the top-up hands out fewer than four posts. */
  lemma RebalanceShortfall(counts: Quad<int>, total: nat, d: Quad<real>)
    requires total > 0 && SumInt(counts) > total
    ensures var scaled := ScaledDown(counts, total);
            && 0 <= total - SumInt(scaled) < 4
            && Rebalance(counts, total, d) == TopUpByGap(scaled, total - SumInt(scaled), total, d)
  {
    ScaledDownBounds(counts, total);
  }

  /** Handing out fewer than four posts gives one each to the first types in
      gap order (`GapOrderSorted`: the types furthest below their target) and
      nothing to the rest. */
  lemma TopUpByGapOnce(scaled: Quad<int>, diff: nat, total: nat, d: Quad<real>, t: PostType)
    requires total > 0 && diff < 4
    ensures TopUpByGap(scaled, diff, total, d).Get(t)
            == scaled.Get(t) + (if t in GapOrder(d, scaled, total)[..diff] then 1 else 0)
  {
    var order := GapOrder(d, scaled, total);
    GapOrderDistinct(order);
    TopUpOnce(scaled, order, diff, 0, t);
  }

  lemma GapOrderDistinct(order: seq<PostType>)
    requires multiset(order) == multiset(TypeOrder)
    ensures forall a, b :: 0 <= a < b < |order| ==> order[a] != order[b]
  {
    forall a, b | 0 <= a < b < |order| ensures order[a] != order[b] {
      DistinctOrder(order, a, b);
    }
  }

  /** A rearrangement of the four types lists each type once. */
  lemma DistinctOrder(order: seq<PostType>, a: int, b: int)
    requires multiset(order) == multiset(TypeOrder)
    requires 0 <= a < b < |order|
    ensures order[a] != order[b]
  {
    TypeOrderOnce(order[a]);
    OnceDistinct(order, a, b);
  }

  /** An element that occurs once sits at one index only. */
  lemma OnceDistinct(s: seq<PostType>, a: int, b: int)
    requires 0 <= a < b < |s| && multiset(s)[s[a]] == 1
    ensures s[a] != s[b]
  {
    var rest := s[..a] + s[a + 1..];
    assert s == s[..a] + [s[a]] + s[a + 1..];
    assert multiset(s) == multiset(rest) + multiset{s[a]};
    assert s[b] == rest[b - 1];
    assert s[b] in multiset(rest);
  }

  /** Each type occurs once in the type order. */
  lemma TypeOrderOnce(t: PostType)
    ensures multiset(TypeOrder)[t] == 1
  {
    assert TypeOrder == [ProducerPost, EventPost, UserPost, OtherPost];
  }

  /** The rounded counts can add up to less than the total, and are then used as
      they are: five posts split evenly round to one each. */
  lemma RoundedCountsMayFallShort()
    ensures QuotaCounts(5, Quad(0.25, 0.25, 0.25, 0.25)) == Quad(1, 1, 1, 1)
  {
    assert RoundedCounts(5, Quad(0.25, 0.25, 0.25, 0.25)) == Quad(1, 1, 1, 1);
  }

  /** Nine producer posts and one event post, no engagement history: the event
      quota is 2 while its bucket holds 1. */
  lemma QuotaExceedsBucket()
    ensures QuotaCounts(10, TargetDistribution(None, Quad(9, 1, 0, 0))) == Quad(8, 2, 0, 0)
  {
    RenormalisationExceedsShare();
    NinePlusOneRounding();
  }

  lemma NinePlusOneRounding()
    ensures RoundedCounts(10, Quad(7.0 / 9.0, 2.0 / 9.0, 0.0, 0.0)) == Quad(8, 2, 0, 0)
  {
    var p := Round(10.0 * (7.0 / 9.0));
    assert 10.0 * (7.0 / 9.0) == 70.0 / 9.0;
    assert 7.0 < p as real < 9.0;
    var e := Round(10.0 * (2.0 / 9.0));
    assert 10.0 * (2.0 / 9.0) == 20.0 / 9.0;
    assert 1.0 < e as real < 3.0;
  }

  /** Clamps each quota to the size of its bucket, so that the interleaving can
      always use up its quotas. */
  function ClampToBuckets(q: Quad<int>, sizes: Quad<nat>): (c: Quad<int>)
    ensures forall t :: c.Get(t) <= sizes.Get(t)
    ensures forall t :: q.Get(t) <= sizes.Get(t) ==> c.Get(t) == q.Get(t)
    ensures forall t :: q.Get(t) >= 0 ==> c.Get(t) >= 0
  {
    Quad(if q.producer <= sizes.producer then q.producer else sizes.producer,
         if q.event <= sizes.event then q.event else sizes.event,
         if q.user <= sizes.user then q.user else sizes.user,
         if q.other <= sizes.other then q.other else sizes.other)
  }
}
