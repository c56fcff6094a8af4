/** The interleaving loop at the end of `redistributePosts`
    (post_automation_integration.js): the buckets are visited in turn, producer,
    event, user, other; a visit takes the head of the bucket while the type's
    quota lasts; after a full round with every quota used up, the leftovers of
    the buckets are appended in type order. */
module Interleave {
  import opened FeedModel
  import opened Diversity

  /** The loop's variables: the buckets being shifted, `remainingByType`,
      `result`, `typeIndex`, and whether the loop has left by its `break`. */
  datatype Loop = Loop(
    buckets: Quad<seq<ScoredPost>>,
    remaining: Quad<int>,
    result: seq<ScoredPost>,
    typeIndex: nat,
    done: bool)

  function Start(g: Quad<seq<ScoredPost>>, quotas: Quad<int>): Loop {
    Loop(g, quotas, [], 0, false)
  }

  /** The four buckets one after the other, in type order. */
  function Concat(g: Quad<seq<ScoredPost>>): (r: seq<ScoredPost>)
    ensures |r| == TotalSize(g)
    ensures multiset(r) == GroupMultiset(g)
  {
    g.producer + g.event + g.user + g.other
  }

  /** Quotas that a bucket can honour: between 0 and the bucket's size. */
  predicate Fits(quotas: Quad<int>, g: Quad<seq<ScoredPost>>) {
    forall t :: 0 <= quotas.Get(t) <= |g.Get(t)|
  }

  /** What is left of every bucket once its quota is taken. */
  function Drop(g: Quad<seq<ScoredPost>>, quotas: Quad<int>): (d: Quad<seq<ScoredPost>>)
    requires Fits(quotas, g)
    ensures forall t :: d.Get(t) == g.Get(t)[quotas.Get(t)..]
  {
    QuadFields(quotas);
    QuadFields(g);
    Quad(g.producer[quotas.producer..], g.event[quotas.event..],
         g.user[quotas.user..], g.other[quotas.other..])
  }

  /** Every bucket holds only posts of its own type, as `groupPostsByType` builds them. */
  predicate Homogeneous(g: Quad<seq<ScoredPost>>) {
    forall t :: AllOfType(g.Get(t), t)
  }

  /** One visit: shift the head of the current bucket onto the result when its
      quota is positive and it is not empty. */
  function Visit(s: Loop): (n: Loop)
    ensures n.typeIndex == s.typeIndex && n.done == s.done
  {
    var t := TypeOrder[s.typeIndex % 4];
    var b := s.buckets.Get(t);
    if s.remaining.Get(t) > 0 && |b| > 0 then
      s.(result := s.result + [b[0]], buckets := s.buckets.Set(t, b[1..]),
         remaining := s.remaining.Set(t, s.remaining.Get(t) - 1))
    else s
  }

  /** The `break` branch: every leftover post appended, in type order. */
  function Finish(s: Loop): Loop {
    s.(result := s.result + Concat(s.buckets), buckets := Quad([], [], [], []), done := true)
  }

  /** One iteration of the `while` body. */
  function Step(s: Loop): (n: Loop)
    requires !s.done
    ensures n.typeIndex == s.typeIndex + 1
  {
    EndOfRound(Visit(s).(typeIndex := s.typeIndex + 1))
  }

  /** The check after `typeIndex++`: at the end of a round with every quota
      used up, the `break`. */
  function EndOfRound(v: Loop): (n: Loop)
    ensures n.typeIndex == v.typeIndex
  {
    if v.typeIndex % 4 == 0 && SumInt(v.remaining) == 0 then Finish(v) else v
  }

  /** The loop has stopped: by its `break`, or because the result is full. */
  predicate Halted(s: Loop, total: nat) {
    s.done || |s.result| >= total
  }

  /** The loop's state after at most `n` iterations. */
  function Run(s: Loop, total: nat, n: nat): Loop {
    if n == 0 then s
    else
      var p := Run(s, total, n - 1);
      if Halted(p, total) then p else Step(p)
  }

  /** What a visit does when the current type has a quota left and a post to
      give: one post moved from the head of its bucket to the result, the type's
      quota counted down, nothing else changed. */
  lemma VisitShift(s: Loop)
    requires var k := TypeOrder[s.typeIndex % 4]; s.remaining.Get(k) > 0 && |s.buckets.Get(k)| > 0
    ensures var k := TypeOrder[s.typeIndex % 4];
            var b := s.buckets.Get(k);
            var n := Visit(s);
            && n.result == s.result + [b[0]]
            && n.buckets.Get(k) == b[1..] && n.remaining.Get(k) == s.remaining.Get(k) - 1
            && (forall u :: u != k ==> n.buckets.Get(u) == s.buckets.Get(u) && n.remaining.Get(u) == s.remaining.Get(u))
            && TotalSize(n.buckets) == TotalSize(s.buckets) - 1
            && SumInt(n.remaining) == SumInt(s.remaining) - 1
  {
    var k := TypeOrder[s.typeIndex % 4];
    var b := s.buckets.Get(k);
    var n := Visit(s);
    assert n.buckets == s.buckets.Set(k, b[1..]);
    assert n.remaining == s.remaining.Set(k, s.remaining.Get(k) - 1);
    BucketsMultiset(s.buckets, k, b[1..]);
    SumSet(s.remaining, k, s.remaining.Get(k) - 1);
  }

  /** The post a shift moves leaves the buckets' multiset. */
  lemma VisitShiftMultiset(s: Loop)
    requires var k := TypeOrder[s.typeIndex % 4]; s.remaining.Get(k) > 0 && |s.buckets.Get(k)| > 0
    ensures var b := s.buckets.Get(TypeOrder[s.typeIndex % 4]);
            GroupMultiset(Visit(s).buckets) + multiset{b[0]} == GroupMultiset(s.buckets)
  {
    var k := TypeOrder[s.typeIndex % 4];
    var b := s.buckets.Get(k);
    assert Visit(s).buckets == s.buckets.Set(k, b[1..]);
    assert multiset(b) == multiset{b[0]} + multiset(b[1..]) by {
      assert b == [b[0]] + b[1..];
    }
    BucketsMultiset(s.buckets, k, b[1..]);
  }

  lemma BucketsMultiset(g: Quad<seq<ScoredPost>>, t: PostType, b: seq<ScoredPost>)
    ensures GroupMultiset(g.Set(t, b)) + multiset(g.Get(t)) == GroupMultiset(g) + multiset(b)
    ensures TotalSize(g.Set(t, b)) == TotalSize(g) - |g.Get(t)| + |b|
  {
  }

  lemma SumSet(q: Quad<int>, t: PostType, v: int)
    ensures SumInt(q.Set(t, v)) == SumInt(q) - q.Get(t) + v
  {
  }

  /** Four counts that are not negative add up to 0 only when each is 0. */
  lemma SumZero(q: Quad<int>)
    requires forall t :: q.Get(t) >= 0
    ensures SumInt(q) >= 0
    ensures SumInt(q) == 0 <==> forall t :: q.Get(t) == 0
    ensures forall t :: SumInt(q) >= q.Get(t)
  {
    QuadFields(q);
  }

  // ---------------------------------------------------------------------------
  // The quotas exceed a bucket: the loop never stops

  /** A state from which the loop cannot stop: type `t` has a quota its bucket
      cannot honour, so the quotas never all reach 0, and type `u` has more posts
      than quota, so some post is never shifted and the result never fills up. */
  predicate Stuck(s: Loop, total: nat, t: PostType, u: PostType) {
    && !s.done
    && |s.result| + TotalSize(s.buckets) == total
    && (forall v :: s.remaining.Get(v) >= 0)
    && s.remaining.Get(t) > |s.buckets.Get(t)|
    && |s.buckets.Get(u)| > s.remaining.Get(u)
  }

  lemma StepStaysStuck(s: Loop, total: nat, t: PostType, u: PostType)
    requires Stuck(s, total, t, u)
    ensures !Halted(s, total)
    ensures Stuck(Step(s), total, t, u)
  {
    QuadFields(s.buckets);
    assert TotalSize(s.buckets) >= |s.buckets.Get(u)| > 0;
    var w := Visit(s);
    var v := w.(typeIndex := s.typeIndex + 1);
    assert Step(s) == EndOfRound(v);
    VisitStaysStuck(s, total, t, u);
    SumZero(w.remaining);
    assert SumInt(w.remaining) > 0;
  }

  /** A visit neither fills a quota that its bucket cannot honour nor empties
      the bucket that has posts to spare. */
  lemma VisitStaysStuck(s: Loop, total: nat, t: PostType, u: PostType)
    requires Stuck(s, total, t, u)
    ensures Stuck(Visit(s), total, t, u)
  {
    var k := TypeOrder[s.typeIndex % 4];
    if s.remaining.Get(k) > 0 && |s.buckets.Get(k)| > 0 {
      VisitShift(s);
    }
  }

  /** From a stuck state, no number of iterations stops the loop. */
  lemma {:induction false} NeverHalts(s: Loop, total: nat, t: PostType, u: PostType, n: nat)
    requires Stuck(s, total, t, u)
    ensures Stuck(Run(s, total, n), total, t, u)
    ensures !Halted(Run(s, total, n), total)
  {
    if n > 0 {
      NeverHalts(s, total, t, u, n - 1);
      StepStaysStuck(Run(s, total, n - 1), total, t, u);
    }
    StepStaysStuck(Run(s, total, n), total, t, u);
  }

  // ---------------------------------------------------------------------------
  // Quotas that fit: the loop stops with every post placed

  /** The loop invariant: nothing is lost; before the `break`, each bucket has
      lost exactly the posts its quota has used, to the result, in order; after
      it, the result is the quota part followed by the leftovers. */
  ghost predicate Inv(s: Loop, g: Quad<seq<ScoredPost>>, quotas: Quad<int>)
    requires Fits(quotas, g)
  {
    && |s.result| + TotalSize(s.buckets) == TotalSize(g)
    && multiset(s.result) + GroupMultiset(s.buckets) == GroupMultiset(g)
    && (!s.done ==> Placed(s, g, quotas))
    && (s.done ==> Arranged(s.result, g, quotas) && s.buckets == Quad([], [], [], []))
  }

  /** Before the `break`: the quota counters and the buckets agree. */
  ghost predicate Placed(s: Loop, g: Quad<seq<ScoredPost>>, quotas: Quad<int>)
    requires Fits(quotas, g)
  {
    && (forall t :: 0 <= s.remaining.Get(t) <= quotas.Get(t))
    && (forall t :: s.buckets.Get(t) == g.Get(t)[quotas.Get(t) - s.remaining.Get(t)..])
    && |s.result| == SumInt(quotas) - SumInt(s.remaining)
    && (Homogeneous(g) ==> forall t :: OfType(s.result, t) == g.Get(t)[..quotas.Get(t) - s.remaining.Get(t)])
  }

  /** The finished arrangement: first the quota part, holding for every type the
      first `quotas[t]` posts of its bucket, then the leftovers in type order. */
  ghost predicate Arranged(r: seq<ScoredPost>, g: Quad<seq<ScoredPost>>, quotas: Quad<int>)
    requires Fits(quotas, g)
  {
    && 0 <= SumInt(quotas) <= |r|
    && r[SumInt(quotas)..] == Concat(Drop(g, quotas))
    && (Homogeneous(g) ==> forall t :: OfType(r[..SumInt(quotas)], t) == g.Get(t)[..quotas.Get(t)])
  }

  lemma StartInv(g: Quad<seq<ScoredPost>>, quotas: Quad<int>)
    requires Fits(quotas, g)
    ensures Inv(Start(g, quotas), g, quotas)
  {
    var s := Start(g, quotas);
    forall t ensures s.buckets.Get(t) == g.Get(t)[quotas.Get(t) - s.remaining.Get(t)..]
                  && OfType(s.result, t) == g.Get(t)[..quotas.Get(t) - s.remaining.Get(t)] {
      assert g.Get(t)[0..] == g.Get(t);
      assert g.Get(t)[..0] == [];
    }
    assert Placed(s, g, quotas);
  }

  /** The post a visit moves is the next one of its bucket. */
  lemma VisitHomogeneous(s: Loop, g: Quad<seq<ScoredPost>>, quotas: Quad<int>)
    requires Fits(quotas, g) && Homogeneous(g)
    requires forall t :: 0 <= s.remaining.Get(t) <= quotas.Get(t)
    requires forall t :: s.buckets.Get(t) == g.Get(t)[quotas.Get(t) - s.remaining.Get(t)..]
    requires forall t :: OfType(s.result, t) == g.Get(t)[..quotas.Get(t) - s.remaining.Get(t)]
    ensures forall t :: OfType(Visit(s).result, t) == g.Get(t)[..quotas.Get(t) - Visit(s).remaining.Get(t)]
  {
    var k := TypeOrder[s.typeIndex % 4];
    var b := s.buckets.Get(k);
    if s.remaining.Get(k) > 0 && |b| > 0 {
      var n := Visit(s);
      var x := b[0];
      var i := quotas.Get(k) - s.remaining.Get(k);
      assert n.result == s.result + [x];
      assert n.remaining == s.remaining.Set(k, s.remaining.Get(k) - 1);
      assert x == g.Get(k)[i];
      assert AllOfType(g.Get(k), k);
      assert ItemType(x) == k;
      assert g.Get(k)[..i + 1] == g.Get(k)[..i] + [x];
      forall t ensures OfType(n.result, t) == g.Get(t)[..quotas.Get(t) - n.remaining.Get(t)] {
        OfTypeSnoc(s.result, x, t);
      }
    }
  }

  /** Appending one post adds it to the posts of its own type only. */
  lemma OfTypeSnoc(r: seq<ScoredPost>, x: ScoredPost, t: PostType)
    ensures OfType(r + [x], t) == OfType(r, t) + (if ItemType(x) == t then [x] else [])
  {
    OfTypeAppend(r, [x], t);
    assert OfType([x], t) == (if ItemType(x) == t then [x] else []) + OfType([], t);
  }

  /** A visit keeps the counters and buckets in step, and uses a quota whenever
      the current type has one left. */
  lemma VisitPlaced(s: Loop, g: Quad<seq<ScoredPost>>, quotas: Quad<int>)
    requires Fits(quotas, g) && !s.done && Inv(s, g, quotas)
    ensures Inv(Visit(s), g, quotas)
  {
    var k := TypeOrder[s.typeIndex % 4];
    if s.remaining.Get(k) > 0 && |s.buckets.Get(k)| > 0 {
      VisitConserves(s, g, quotas);
      VisitShiftPlaced(s, g, quotas);
    } else {
      assert Visit(s) == s;
    }
  }

  /** A shift moves one post from a bucket to the result. */
  lemma VisitConserves(s: Loop, g: Quad<seq<ScoredPost>>, quotas: Quad<int>)
    requires Fits(quotas, g) && Inv(s, g, quotas)
    requires var k := TypeOrder[s.typeIndex % 4]; s.remaining.Get(k) > 0 && |s.buckets.Get(k)| > 0
    ensures |Visit(s).result| + TotalSize(Visit(s).buckets) == TotalSize(g)
    ensures multiset(Visit(s).result) + GroupMultiset(Visit(s).buckets) == GroupMultiset(g)
  {
    VisitShift(s);
    VisitShiftMultiset(s);
  }

  /** A shift keeps the quota counters and the buckets in step. */
  lemma VisitShiftPlaced(s: Loop, g: Quad<seq<ScoredPost>>, quotas: Quad<int>)
    requires Fits(quotas, g) && Placed(s, g, quotas)
    requires var k := TypeOrder[s.typeIndex % 4]; s.remaining.Get(k) > 0 && |s.buckets.Get(k)| > 0
    ensures Placed(Visit(s), g, quotas)
  {
    VisitCounters(s, g, quotas);
    VisitShift(s);
    if Homogeneous(g) {
      VisitHomogeneous(s, g, quotas);
    }
  }

  /** After a shift, every bucket is still its type's posts past the quota used. */
  lemma VisitCounters(s: Loop, g: Quad<seq<ScoredPost>>, quotas: Quad<int>)
    requires Fits(quotas, g)
    requires forall t :: 0 <= s.remaining.Get(t) <= quotas.Get(t)
    requires forall t :: s.buckets.Get(t) == g.Get(t)[quotas.Get(t) - s.remaining.Get(t)..]
    requires var k := TypeOrder[s.typeIndex % 4]; s.remaining.Get(k) > 0 && |s.buckets.Get(k)| > 0
    ensures forall t :: 0 <= Visit(s).remaining.Get(t) <= quotas.Get(t)
    ensures forall t :: Visit(s).buckets.Get(t) == g.Get(t)[quotas.Get(t) - Visit(s).remaining.Get(t)..]
  {
    var k := TypeOrder[s.typeIndex % 4];
    var b := s.buckets.Get(k);
    var n := Visit(s);
    assert n.buckets == s.buckets.Set(k, b[1..]);
    assert n.remaining == s.remaining.Set(k, s.remaining.Get(k) - 1);
    var i := quotas.Get(k) - s.remaining.Get(k);
    assert b[1..] == g.Get(k)[i + 1..];
  }

  /** Every quota left can be honoured by its bucket. */
  predicate Honourable(s: Loop) {
    forall t :: 0 <= s.remaining.Get(t) <= |s.buckets.Get(t)|
  }

  lemma PlacedHonourable(s: Loop, g: Quad<seq<ScoredPost>>, quotas: Quad<int>)
    requires Fits(quotas, g) && !s.done && Inv(s, g, quotas)
    ensures Honourable(s)
  {
    forall t ensures 0 <= s.remaining.Get(t) <= |s.buckets.Get(t)| {
      assert |s.buckets.Get(t)| == |g.Get(t)| - (quotas.Get(t) - s.remaining.Get(t));
    }
  }

  /** A visit uses a quota whenever the current type has one left. */
  lemma VisitProgress(s: Loop)
    requires Honourable(s)
    ensures SumInt(Visit(s).remaining) <= SumInt(s.remaining)
    ensures SumInt(Visit(s).remaining) == SumInt(s.remaining) ==>
              Visit(s).remaining == s.remaining && s.remaining.Get(TypeOrder[s.typeIndex % 4]) == 0
  {
    var k := TypeOrder[s.typeIndex % 4];
    if s.remaining.Get(k) > 0 && |s.buckets.Get(k)| > 0 {
      VisitShift(s);
    }
  }

  /** The `break`: with every quota used up, appending the leftovers gives the
      finished arrangement. */
  lemma FinishArranged(s: Loop, g: Quad<seq<ScoredPost>>, quotas: Quad<int>)
    requires Fits(quotas, g) && !s.done && Inv(s, g, quotas) && SumInt(s.remaining) == 0
    ensures Inv(Finish(s), g, quotas)
  {
    FinishConserves(s);
    FinishArrangement(s, g, quotas);
  }

  /** With every quota used up, the result is the quota part and the buckets
      are the leftovers, so appending them gives the arrangement. */
  lemma FinishArrangement(s: Loop, g: Quad<seq<ScoredPost>>, quotas: Quad<int>)
    requires Fits(quotas, g) && Placed(s, g, quotas) && SumInt(s.remaining) == 0
    ensures Arranged(Finish(s).result, g, quotas)
  {
    SumZero(s.remaining);
    var d := Drop(g, quotas);
    assert s.buckets == d by {
      QuadFields(s.buckets);
      QuadFields(d);
    }
    FinishPrefix(s.result, d, SumInt(quotas));
  }

  /** Appending the buckets moves every post from the buckets to the result. */
  lemma FinishConserves(s: Loop)
    ensures |Finish(s).result| + TotalSize(Finish(s).buckets) == |s.result| + TotalSize(s.buckets)
    ensures multiset(Finish(s).result) + GroupMultiset(Finish(s).buckets)
            == multiset(s.result) + GroupMultiset(s.buckets)
  {
    var e: Quad<seq<ScoredPost>> := Quad([], [], [], []);
    assert TotalSize(e) == 0 && GroupMultiset(e) == multiset{};
  }

  /** After the append, the old result is the prefix and the buckets the rest. */
  lemma FinishPrefix(result: seq<ScoredPost>, d: Quad<seq<ScoredPost>>, n: int)
    requires |result| == n
    ensures (result + Concat(d))[..n] == result
    ensures (result + Concat(d))[n..] == Concat(d)
  {
  }

  /** An iteration keeps the invariant. */
  lemma StepInv(s: Loop, g: Quad<seq<ScoredPost>>, quotas: Quad<int>)
    requires Fits(quotas, g) && !s.done && Inv(s, g, quotas)
    ensures Inv(Step(s), g, quotas)
  {
    var w := Visit(s);
    var v := w.(typeIndex := s.typeIndex + 1);
    assert Step(s) == EndOfRound(v);
    VisitPlaced(s, g, quotas);
    InvIgnoresIndex(w, v, g, quotas);
    EndOfRoundInv(v, g, quotas);
  }

  /** The round check after a visit keeps the invariant. */
  lemma EndOfRoundInv(v: Loop, g: Quad<seq<ScoredPost>>, quotas: Quad<int>)
    requires Fits(quotas, g) && !v.done && Inv(v, g, quotas)
    ensures Inv(EndOfRound(v), g, quotas)
  {
    if v.typeIndex % 4 == 0 && SumInt(v.remaining) == 0 {
      FinishArranged(v, g, quotas);
    }
  }

  lemma InvIgnoresIndex(w: Loop, v: Loop, g: Quad<seq<ScoredPost>>, quotas: Quad<int>)
    requires Fits(quotas, g) && Inv(w, g, quotas)
    requires v.buckets == w.buckets && v.remaining == w.remaining && v.result == w.result && v.done == w.done
    ensures Inv(v, g, quotas)
  {
  }

  /** An iteration makes progress within the round: a round that ends with
      quotas left has used at least one. */
  lemma StepProgress(s: Loop, roundStart: int)
    requires !s.done && Honourable(s) && InRound(s, roundStart)
    ensures var n := Step(s);
            !n.done ==>
              if n.typeIndex % 4 == 0 then 0 <= SumInt(n.remaining) < roundStart
              else InRound(n, roundStart)
  {
    var w := Visit(s);
    var v := w.(typeIndex := s.typeIndex + 1);
    assert Step(s) == EndOfRound(v);
    VisitProgress(s);
    SumZero(w.remaining);
    var i := s.typeIndex % 4;
    assert v.typeIndex % 4 == if i == 3 then 0 else i + 1;
    if SumInt(v.remaining) == roundStart && i == 3 {
      assert TypeOrder == [ProducerPost, EventPost, UserPost, OtherPost];
      assert w.remaining.Get(TypeOrder[0]) == 0 && w.remaining.Get(TypeOrder[1]) == 0;
      assert w.remaining.Get(TypeOrder[2]) == 0 && w.remaining.Get(TypeOrder[3]) == 0;
      QuadFields(w.remaining);
      assert SumInt(v.remaining) == 0;
    }
  }

  /** Within a round: the quotas left have not grown since the round began, and
      if none has been used yet, every type visited so far has none left. */
  ghost predicate InRound(s: Loop, roundStart: int) {
    && 0 <= SumInt(s.remaining) <= roundStart
    && (SumInt(s.remaining) == roundStart ==> forall j :: 0 <= j < s.typeIndex % 4 ==> s.remaining.Get(TypeOrder[j]) == 0)
  }

  /** At the end, the result is the finished arrangement, whichever way the loop stopped. */
  lemma HaltedArranged(s: Loop, g: Quad<seq<ScoredPost>>, quotas: Quad<int>)
    requires Fits(quotas, g) && Inv(s, g, quotas) && Halted(s, TotalSize(g))
    ensures Arranged(s.result, g, quotas)
    ensures multiset(s.result) == GroupMultiset(g) && |s.result| == TotalSize(g)
  {
    assert s.buckets == Quad([], [], [], []) by {
      if !s.done {
        assert TotalSize(s.buckets) == 0;
      }
    }
    if !s.done {
      QuadFields(quotas);
      QuadFields(g);
      SumZero(s.remaining);
      forall t ensures quotas.Get(t) == |g.Get(t)| {
      }
      var d := Drop(g, quotas);
      QuadFields(d);
      assert Concat(d) == [];
      assert s.result[..SumInt(quotas)] == s.result;
    }
  }

  /** Concatenating buckets of one type each, the posts of type `t` are bucket `t`. */
  lemma ConcatOfType(d: Quad<seq<ScoredPost>>, t: PostType)
    requires Homogeneous(d)
    ensures OfType(Concat(d), t) == d.Get(t)
  {
    HomogeneousFields(d);
    OfTypeBucket(d.producer, ProducerPost, t);
    OfTypeBucket(d.event, EventPost, t);
    OfTypeBucket(d.user, UserPost, t);
    OfTypeBucket(d.other, OtherPost, t);
    ConcatPick(d, t);
  }

  /** The step of ConcatOfType once each bucket's share of type `t` is known. */
  lemma ConcatPick(d: Quad<seq<ScoredPost>>, t: PostType)
    requires OfType(d.producer, t) == if t == ProducerPost then d.producer else []
    requires OfType(d.event, t) == if t == EventPost then d.event else []
    requires OfType(d.user, t) == if t == UserPost then d.user else []
    requires OfType(d.other, t) == if t == OtherPost then d.other else []
    ensures OfType(Concat(d), t) == d.Get(t)
  {
    ConcatSplit(d, t);
    PickPart(OfType(Concat(d), t), OfType(d.producer, t), OfType(d.event, t), OfType(d.user, t),
             OfType(d.other, t), d, t);
  }

  /** A join of four parts, each of which is bucket `t` of `d` at `t` and empty
      elsewhere, is bucket `t`. */
  lemma PickPart(x: seq<ScoredPost>, p: seq<ScoredPost>, e: seq<ScoredPost>, u: seq<ScoredPost>,
                 o: seq<ScoredPost>, d: Quad<seq<ScoredPost>>, t: PostType)
    requires x == p + e + u + o
    requires p == if t == ProducerPost then d.producer else []
    requires e == if t == EventPost then d.event else []
    requires u == if t == UserPost then d.user else []
    requires o == if t == OtherPost then d.other else []
    ensures x == d.Get(t)
  {
    match t
    case ProducerPost => assert p + [] + [] + [] == p;
    case EventPost => assert [] + e + [] + [] == e;
    case UserPost => assert [] + [] + u + [] == u;
    case OtherPost => assert [] + [] + [] + o == o;
  }

  /** Homogeneity, field by field. */
  lemma HomogeneousFields(d: Quad<seq<ScoredPost>>)
    requires Homogeneous(d)
    ensures AllOfType(d.producer, ProducerPost) && AllOfType(d.event, EventPost)
    ensures AllOfType(d.user, UserPost) && AllOfType(d.other, OtherPost)
  {
    QuadFields(d);
    assert AllOfType(d.Get(ProducerPost), ProducerPost);
    assert AllOfType(d.Get(EventPost), EventPost);
    assert AllOfType(d.Get(UserPost), UserPost);
    assert AllOfType(d.Get(OtherPost), OtherPost);
  }

  lemma ConcatSplit(d: Quad<seq<ScoredPost>>, t: PostType)
    ensures OfType(Concat(d), t)
            == OfType(d.producer, t) + OfType(d.event, t) + OfType(d.user, t) + OfType(d.other, t)
  {
    OfTypeAppend(d.producer, d.event, t);
    OfTypeAppend(d.producer + d.event, d.user, t);
    OfTypeAppend(d.producer + d.event + d.user, d.other, t);
  }

  lemma OfTypeBucket(b: seq<ScoredPost>, u: PostType, t: PostType)
    requires AllOfType(b, u)
    ensures OfType(b, t) == if u == t then b else []
  {
    if u == t { OfTypeSame(b, t); } else { OfTypeOther(b, u, t); }
  }

  /** The finished arrangement keeps, for every type, its posts in bucket order. */
  lemma ArrangedKeepsOrder(r: seq<ScoredPost>, g: Quad<seq<ScoredPost>>, quotas: Quad<int>, t: PostType)
    requires Fits(quotas, g) && Homogeneous(g) && Arranged(r, g, quotas)
    ensures OfType(r, t) == g.Get(t)
  {
    var d := Drop(g, quotas);
    DropHomogeneous(g, quotas);
    ConcatOfType(d, t);
    var n := SumInt(quotas);
    assert r == r[..n] + r[n..];
    OfTypeAppend(r[..n], r[n..], t);
    var b := g.Get(t);
    var q := quotas.Get(t);
    assert OfType(r[..n], t) == b[..q];
    assert OfType(r[n..], t) == b[q..];
    assert b == b[..q] + b[q..];
  }

  /** The leftovers of homogeneous buckets are homogeneous. */
  lemma DropHomogeneous(g: Quad<seq<ScoredPost>>, quotas: Quad<int>)
    requires Fits(quotas, g) && Homogeneous(g)
    ensures Homogeneous(Drop(g, quotas))
  {
    var d := Drop(g, quotas);
    forall u ensures AllOfType(d.Get(u), u) {
      assert AllOfType(g.Get(u), u);
    }
  }

  // ---------------------------------------------------------------------------
  // The order the loop produces: round after round

  /** Position of a type in the visiting order. */
  function TypeRank(t: PostType): (i: nat)
    ensures i < 4 && TypeOrder[i] == t
  {
    match t
    case ProducerPost => 0
    case EventPost => 1
    case UserPost => 2
    case OtherPost => 3
  }

  /** Round `j` of the round-robin, cut after the first `k` types: the `j`-th
      post of every such bucket whose quota exceeds `j`, in type order. */
  function RoundOf(g: Quad<seq<ScoredPost>>, quotas: Quad<int>, j: nat, k: nat): seq<ScoredPost>
    requires Fits(quotas, g) && k <= 4
  {
    if k == 0 then []
    else
      var t := TypeOrder[k - 1];
      RoundOf(g, quotas, j, k - 1) + (if quotas.Get(t) > j then [g.Get(t)[j]] else [])
  }

  /** Rounds 0 to `n - 1`, one after the other. */
  function Rounds(g: Quad<seq<ScoredPost>>, quotas: Quad<int>, n: nat): seq<ScoredPost>
    requires Fits(quotas, g)
  {
    if n == 0 then [] else Rounds(g, quotas, n - 1) + RoundOf(g, quotas, n - 1, 4)
  }

  /** The largest quota, 0 when there is none. */
  function MaxQuota(q: Quad<int>): (m: nat)
    ensures forall t :: q.Get(t) <= m
    ensures m == 0 || m == q.producer || m == q.event || m == q.user || m == q.other
  {
    var a := if q.producer > q.event then q.producer else q.event;
    var b := if q.user > q.other then q.user else q.other;
    var c := if a > b then a else b;
    if c > 0 then c else 0
  }

  /** The round-robin the loop performs: round `j` takes the `j`-th post of every
      type whose quota exceeds `j`, producer, event, user, other; the rounds go on
      until every quota is used, and the leftovers follow in type order. */
  function RoundRobin(g: Quad<seq<ScoredPost>>, quotas: Quad<int>): (r: seq<ScoredPost>)
    requires Fits(quotas, g)
  {
    Rounds(g, quotas, MaxQuota(quotas)) + Concat(Drop(g, quotas))
  }

  /** Two producer posts and two event posts, with quotas of two each, come out
      alternating: producer, event, producer, event. */
  lemma RoundRobinAlternates(p1: ScoredPost, p2: ScoredPost, e1: ScoredPost, e2: ScoredPost)
    ensures var g := Quad([p1, p2], [e1, e2], [], []);
            var q := Quad(2, 2, 0, 0);
            Fits(q, g) && RoundRobin(g, q) == [p1, e1, p2, e2]
  {
    var g := Quad([p1, p2], [e1, e2], [], []);
    var q := Quad(2, 2, 0, 0);
    QuadFields(g);
    QuadFields(q);
    assert Fits(q, g);
    TwoTypeRound(g, q, 0);
    TwoTypeRound(g, q, 1);
    assert Rounds(g, q, 1) == [p1, e1];
    assert Rounds(g, q, 2) == [p1, e1, p2, e2];
    assert Drop(g, q) == Quad([], [], [], []);
  }

  /** A round over producer and event buckets alone, both with a post at `j`. */
  lemma TwoTypeRound(g: Quad<seq<ScoredPost>>, q: Quad<int>, j: nat)
    requires Fits(q, g) && q.producer > j && q.event > j && q.user == 0 && q.other == 0
    requires j < |g.producer| && j < |g.event|
    ensures RoundOf(g, q, j, 4) == [g.producer[j], g.event[j]]
  {
    QuadFields(g);
    QuadFields(q);
    assert TypeOrder[0] == ProducerPost && TypeOrder[1] == EventPost;
    assert TypeOrder[2] == UserPost && TypeOrder[3] == OtherPost;
    assert RoundOf(g, q, j, 1) == [g.producer[j]];
    assert RoundOf(g, q, j, 2) == [g.producer[j], g.event[j]];
    assert RoundOf(g, q, j, 3) == [g.producer[j], g.event[j]];
  }

  /** How many posts of type `t` the loop has taken after `visits` iterations:
      one per completed round, one more once this round has passed `t`, never
      more than the quota. */
  function Taken(quota: int, t: PostType, visits: nat): int {
    var due := visits / 4 + (if TypeRank(t) < visits % 4 then 1 else 0);
    if quota < due then quota else due
  }

  /** Before the loop stops: the result holds the completed rounds and the part
      of the current round visited so far, and each quota counter has gone down
      by what `Taken` says. */
  ghost predicate InRoundRobin(s: Loop, g: Quad<seq<ScoredPost>>, quotas: Quad<int>)
    requires Fits(quotas, g)
  {
    && !s.done
    && s.result == Rounds(g, quotas, s.typeIndex / 4) + RoundOf(g, quotas, s.typeIndex / 4, s.typeIndex % 4)
    && (forall t :: s.remaining.Get(t) == quotas.Get(t) - Taken(quotas.Get(t), t, s.typeIndex))
  }

  /** A round of a type whose quota is used up contributes nothing. */
  lemma {:induction false} RoundOfTail(g: Quad<seq<ScoredPost>>, quotas: Quad<int>, j: nat, i: nat, k: nat)
    requires Fits(quotas, g) && i <= k <= 4
    requires forall m :: i <= m < 4 ==> quotas.Get(TypeOrder[m]) <= j
    ensures RoundOf(g, quotas, j, k) == RoundOf(g, quotas, j, i)
  {
    if k > i {
      RoundOfTail(g, quotas, j, i, k - 1);
      assert quotas.Get(TypeOrder[k - 1]) <= j;
    }
  }

  /** Rounds past the largest quota are empty. */
  lemma {:induction false} RoundsBeyond(g: Quad<seq<ScoredPost>>, quotas: Quad<int>, n: nat)
    requires Fits(quotas, g) && n >= MaxQuota(quotas)
    ensures Rounds(g, quotas, n) == Rounds(g, quotas, MaxQuota(quotas))
  {
    if n > MaxQuota(quotas) {
      RoundsBeyond(g, quotas, n - 1);
      RoundOfTail(g, quotas, n - 1, 0, 4);
    }
  }

  lemma StartRoundRobin(g: Quad<seq<ScoredPost>>, quotas: Quad<int>)
    requires Fits(quotas, g)
    ensures InRoundRobin(Start(g, quotas), g, quotas)
  {
  }

  /** The next visit index lands in the same round, or opens the next one. */
  lemma NextVisit(v: nat)
    ensures v % 4 < 3 ==> (v + 1) / 4 == v / 4 && (v + 1) % 4 == v % 4 + 1
    ensures v % 4 == 3 ==> (v + 1) / 4 == v / 4 + 1 && (v + 1) % 4 == 0
  {
  }

  /** Before the `break`, each bucket is its type's posts past the quota used. */
  ghost predicate BucketsAt(s: Loop, g: Quad<seq<ScoredPost>>, quotas: Quad<int>)
    requires Fits(quotas, g)
  {
    forall t :: 0 <= s.remaining.Get(t) <= quotas.Get(t)
                && s.buckets.Get(t) == g.Get(t)[quotas.Get(t) - s.remaining.Get(t)..]
  }

  lemma InvBuckets(s: Loop, g: Quad<seq<ScoredPost>>, quotas: Quad<int>)
    requires Fits(quotas, g) && Inv(s, g, quotas) && !s.done
    ensures BucketsAt(s, g, quotas) && |s.result| + TotalSize(s.buckets) == TotalSize(g)
  {
  }

  /** A visit takes the current round's post of the current type, if any. */
  lemma VisitResult(s: Loop, g: Quad<seq<ScoredPost>>, quotas: Quad<int>)
    requires Fits(quotas, g) && BucketsAt(s, g, quotas) && InRoundRobin(s, g, quotas)
    ensures Visit(s).result
            == Rounds(g, quotas, s.typeIndex / 4) + RoundOf(g, quotas, s.typeIndex / 4, s.typeIndex % 4 + 1)
    ensures var k := TypeOrder[s.typeIndex % 4];
            && Visit(s).remaining.Get(k) == quotas.Get(k) - Taken(quotas.Get(k), k, s.typeIndex + 1)
            && (forall u :: u != k ==> Visit(s).remaining.Get(u) == s.remaining.Get(u))
  {
    var j, i := s.typeIndex / 4, s.typeIndex % 4;
    var k := TypeOrder[i];
    assert TypeRank(k) == i;
    NextVisit(s.typeIndex);
    if quotas.Get(k) > j {
      assert s.remaining.Get(k) == quotas.Get(k) - j;
      assert s.buckets.Get(k) == g.Get(k)[j..];
      VisitShift(s);
    } else {
      assert s.remaining.Get(k) == 0;
    }
  }

  /** After a visit, the counters of the other types are as `Taken` says for the next index. */
  lemma OtherTypesTaken(quotas: Quad<int>, k: PostType, v: nat, u: PostType)
    requires k == TypeOrder[v % 4] && u != k
    ensures Taken(quotas.Get(u), u, v + 1) == Taken(quotas.Get(u), u, v)
  {
    NextVisit(v);
    assert TypeRank(k) == v % 4;
  }

  /** One more visit within the round extends its part; the fourth visit
      completes the round. */
  lemma NextRoundPart(g: Quad<seq<ScoredPost>>, quotas: Quad<int>, v: nat)
    requires Fits(quotas, g)
    ensures Rounds(g, quotas, v / 4) + RoundOf(g, quotas, v / 4, v % 4 + 1)
            == Rounds(g, quotas, (v + 1) / 4) + RoundOf(g, quotas, (v + 1) / 4, (v + 1) % 4)
  {
    NextVisit(v);
  }

  /** After a visit, every counter is as `Taken` says for the next index. */
  lemma NextTaken(s: Loop, w: Loop, quotas: Quad<int>)
    requires forall u :: u != TypeOrder[s.typeIndex % 4] ==> w.remaining.Get(u) == s.remaining.Get(u)
    requires forall u :: s.remaining.Get(u) == quotas.Get(u) - Taken(quotas.Get(u), u, s.typeIndex)
    requires var k := TypeOrder[s.typeIndex % 4];
             w.remaining.Get(k) == quotas.Get(k) - Taken(quotas.Get(k), k, s.typeIndex + 1)
    ensures forall u :: w.remaining.Get(u) == quotas.Get(u) - Taken(quotas.Get(u), u, s.typeIndex + 1)
  {
    var k := TypeOrder[s.typeIndex % 4];
    forall u ensures w.remaining.Get(u) == quotas.Get(u) - Taken(quotas.Get(u), u, s.typeIndex + 1) {
      if u != k {
        OtherTypesTaken(quotas, k, s.typeIndex, u);
      }
    }
  }

  lemma VisitRoundRobin(s: Loop, g: Quad<seq<ScoredPost>>, quotas: Quad<int>)
    requires Fits(quotas, g) && BucketsAt(s, g, quotas) && InRoundRobin(s, g, quotas)
    ensures InRoundRobin(Visit(s).(typeIndex := s.typeIndex + 1), g, quotas)
  {
    VisitResult(s, g, quotas);
    NextTaken(s, Visit(s), quotas);
    NextRoundPart(g, quotas, s.typeIndex);
  }

  /** Quota counters that `Taken` has brought to 0 at the end of round `j`
      leave no quota above `j`. */
  lemma UsedUp(quotas: Quad<int>, remaining: Quad<int>, visits: nat)
    requires visits % 4 == 0
    requires forall t :: remaining.Get(t) == quotas.Get(t) - Taken(quotas.Get(t), t, visits)
    requires forall t :: remaining.Get(t) == 0
    ensures MaxQuota(quotas) <= visits / 4
  {
    forall t ensures quotas.Get(t) <= visits / 4 {
      assert remaining.Get(t) == 0;
    }
    QuadFields(quotas);
  }

  /** Buckets past a fully used quota are what `Drop` leaves. */
  lemma BucketsDropped(b: Quad<seq<ScoredPost>>, g: Quad<seq<ScoredPost>>, quotas: Quad<int>)
    requires Fits(quotas, g)
    requires forall t :: b.Get(t) == g.Get(t)[quotas.Get(t)..]
    ensures b == Drop(g, quotas)
  {
    QuadFields(b);
    QuadFields(Drop(g, quotas));
  }

  /** The `break` at the end of a round with every quota used up completes the round-robin. */
  lemma FinishRoundRobin(v: Loop, g: Quad<seq<ScoredPost>>, quotas: Quad<int>)
    requires Fits(quotas, g) && BucketsAt(v, g, quotas) && InRoundRobin(v, g, quotas)
    requires v.typeIndex % 4 == 0 && SumInt(v.remaining) == 0
    ensures Finish(v).result == RoundRobin(g, quotas)
  {
    SumZero(v.remaining);
    UsedUp(quotas, v.remaining, v.typeIndex);
    forall t ensures v.buckets.Get(t) == g.Get(t)[quotas.Get(t)..] {
      assert v.remaining.Get(t) == 0;
    }
    BucketsDropped(v.buckets, g, quotas);
    RoundsBeyond(g, quotas, v.typeIndex / 4);
  }

  /** Quota counters that are all 0 in the middle of round `j`, before the type
      of rank `i`: no quota of a type from rank `i` on exceeds `j`, and none exceeds `j + 1`. */
  lemma UsedUpMidRound(quotas: Quad<int>, remaining: Quad<int>, visits: nat)
    requires forall t :: remaining.Get(t) == quotas.Get(t) - Taken(quotas.Get(t), t, visits)
    requires forall t :: remaining.Get(t) == 0
    ensures forall m :: visits % 4 <= m < 4 ==> quotas.Get(TypeOrder[m]) <= visits / 4
    ensures MaxQuota(quotas) <= visits / 4 + 1
  {
    forall m | visits % 4 <= m < 4 ensures quotas.Get(TypeOrder[m]) <= visits / 4 {
      assert TypeRank(TypeOrder[m]) == m;
      assert remaining.Get(TypeOrder[m]) == 0;
    }
    forall t ensures quotas.Get(t) <= visits / 4 + 1 {
      assert remaining.Get(t) == 0;
    }
    QuadFields(quotas);
  }

  /** Empty buckets with quotas that fit: every quota is used and every post placed. */
  lemma EmptyBuckets(s: Loop, g: Quad<seq<ScoredPost>>, quotas: Quad<int>)
    requires Fits(quotas, g) && BucketsAt(s, g, quotas) && TotalSize(s.buckets) == 0
    ensures forall t :: s.remaining.Get(t) == 0 && g.Get(t)[quotas.Get(t)..] == []
  {
    QuadFields(s.buckets);
    forall t ensures s.remaining.Get(t) == 0 && g.Get(t)[quotas.Get(t)..] == [] {
      assert |s.buckets.Get(t)| == 0;
    }
  }

  /** A result that holds every post completes the round-robin: every quota is used. */
  lemma FullRoundRobin(s: Loop, g: Quad<seq<ScoredPost>>, quotas: Quad<int>)
    requires Fits(quotas, g) && BucketsAt(s, g, quotas) && InRoundRobin(s, g, quotas)
    requires |s.result| + TotalSize(s.buckets) == TotalSize(g) && |s.result| >= TotalSize(g)
    ensures s.result == RoundRobin(g, quotas)
  {
    var j, i := s.typeIndex / 4, s.typeIndex % 4;
    EmptyBuckets(s, g, quotas);
    UsedUpMidRound(quotas, s.remaining, s.typeIndex);
    RoundOfTail(g, quotas, j, i, 4);
    RoundsBeyond(g, quotas, j + 1);
    BucketsDropped(Quad([], [], [], []), g, quotas);
  }

  /** Each iteration keeps the loop on the round-robin, or ends it with the
      round-robin's result. */
  lemma StepRoundRobin(s: Loop, g: Quad<seq<ScoredPost>>, quotas: Quad<int>)
    requires Fits(quotas, g) && Inv(s, g, quotas) && InRoundRobin(s, g, quotas)
    ensures Halted(Step(s), TotalSize(g)) ==> Step(s).result == RoundRobin(g, quotas)
    ensures !Halted(Step(s), TotalSize(g)) ==> InRoundRobin(Step(s), g, quotas)
  {
    var w := Visit(s);
    var v := w.(typeIndex := s.typeIndex + 1);
    assert Step(s) == EndOfRound(v);
    InvBuckets(s, g, quotas);
    VisitRoundRobin(s, g, quotas);
    VisitPlaced(s, g, quotas);
    InvIgnoresIndex(w, v, g, quotas);
    InvBuckets(v, g, quotas);
    if v.typeIndex % 4 == 0 && SumInt(v.remaining) == 0 {
      FinishRoundRobin(v, g, quotas);
    } else if Halted(v, TotalSize(g)) {
      FullRoundRobin(v, g, quotas);
    }
  }

  /** The loop with quotas that fit follows the round-robin at every iteration,
      and once it has stopped its result is the round-robin. */
  lemma {:induction false} RunRoundRobin(g: Quad<seq<ScoredPost>>, quotas: Quad<int>, n: nat)
    requires Fits(quotas, g)
    ensures var s := Run(Start(g, quotas), TotalSize(g), n);
            && Inv(s, g, quotas)
            && (Halted(s, TotalSize(g)) ==> s.result == RoundRobin(g, quotas))
            && (!Halted(s, TotalSize(g)) ==> InRoundRobin(s, g, quotas))
  {
    var total := TotalSize(g);
    if n == 0 {
      StartInv(g, quotas);
      StartRoundRobin(g, quotas);
      if Halted(Start(g, quotas), total) {
        InvBuckets(Start(g, quotas), g, quotas);
        FullRoundRobin(Start(g, quotas), g, quotas);
      }
    } else {
      RunRoundRobin(g, quotas, n - 1);
      var p := Run(Start(g, quotas), total, n - 1);
      if !Halted(p, total) {
        StepInv(p, g, quotas);
        StepRoundRobin(p, g, quotas);
      }
    }
  }

  /** The interleaving loop, run with quotas its buckets can honour. It stops;
      its result holds every post once; it opens with, for every type, the first
      `quotas[t]` posts of that type's bucket, and ends with the leftovers in type
      order; the posts of each type keep their bucket order. `steps` is the number
      of iterations. */
  method Interleave(g: Quad<seq<ScoredPost>>, quotas: Quad<int>) returns (r: seq<ScoredPost>, steps: nat)
    requires Fits(quotas, g)
    ensures Halted(Run(Start(g, quotas), TotalSize(g), steps), TotalSize(g))
    ensures r == Run(Start(g, quotas), TotalSize(g), steps).result
    ensures r == RoundRobin(g, quotas)
    ensures multiset(r) == GroupMultiset(g) && |r| == TotalSize(g)
    ensures 0 <= SumInt(quotas) <= |r| && r[SumInt(quotas)..] == Concat(Drop(g, quotas))
    ensures Homogeneous(g) ==> forall t :: OfType(r[..SumInt(quotas)], t) == g.Get(t)[..quotas.Get(t)]
    ensures Homogeneous(g) ==> forall t :: OfType(r, t) == g.Get(t)
  {
    var total := TotalSize(g);
    var s := Start(g, quotas);
    StartInv(g, quotas);
    SumZero(quotas);
    steps := 0;
    ghost var roundStart := SumInt(quotas);
    while !Halted(s, total)
      invariant s == Run(Start(g, quotas), total, steps)
      invariant Inv(s, g, quotas)
      invariant !s.done ==> InRound(s, roundStart)
      decreases RoundMeasure(s, roundStart)
    {
      StepInv(s, g, quotas);
      PlacedHonourable(s, g, quotas);
      MeasureDrops(s, roundStart);
      assert Run(Start(g, quotas), total, steps + 1) == Step(s);
      s := Step(s);
      steps := steps + 1;
      if s.typeIndex % 4 == 0 && !s.done {
        roundStart := SumInt(s.remaining);
      }
    }
    r := s.result;
    Finished(s, g, quotas);
    RunRoundRobin(g, quotas, steps);
  }

  /** Four visits per quota left at the start of the round, plus the visits left
      in the round; 0 once the loop has left by its `break`. */
  function RoundMeasure(s: Loop, roundStart: int): nat {
    if s.done || roundStart < 0 then 0 else 4 * (roundStart + 1) + (4 - s.typeIndex % 4)
  }

  /** Every iteration lowers the measure: the round goes on, or a new round
      starts with fewer quotas left, or the loop leaves by its `break`. */
  lemma MeasureDrops(s: Loop, roundStart: int)
    requires !s.done && Honourable(s) && InRound(s, roundStart)
    ensures var n := Step(s);
            && (!n.done && n.typeIndex % 4 != 0 ==> InRound(n, roundStart))
            && (!n.done && n.typeIndex % 4 == 0 ==> InRound(n, SumInt(n.remaining)))
            && RoundMeasure(n, if n.typeIndex % 4 == 0 && !n.done then SumInt(n.remaining) else roundStart)
               < RoundMeasure(s, roundStart)
  {
    StepProgress(s, roundStart);
    ModNext(s.typeIndex);
  }

  lemma ModNext(i: nat)
    ensures (i + 1) % 4 == 0 || (i + 1) % 4 == i % 4 + 1
  {
  }

  /** What the loop leaves behind once it has stopped. */
  lemma Finished(s: Loop, g: Quad<seq<ScoredPost>>, quotas: Quad<int>)
    requires Fits(quotas, g) && Inv(s, g, quotas) && Halted(s, TotalSize(g))
    ensures multiset(s.result) == GroupMultiset(g) && |s.result| == TotalSize(g)
    ensures 0 <= SumInt(quotas) <= |s.result| && s.result[SumInt(quotas)..] == Concat(Drop(g, quotas))
    ensures Homogeneous(g) ==> forall t :: OfType(s.result[..SumInt(quotas)], t) == g.Get(t)[..quotas.Get(t)]
    ensures Homogeneous(g) ==> forall t :: OfType(s.result, t) == g.Get(t)
  {
    HaltedArranged(s, g, quotas);
    if Homogeneous(g) {
      forall t ensures OfType(s.result, t) == g.Get(t) {
        ArrangedKeepsOrder(s.result, g, quotas, t);
      }
    }
  }
}
