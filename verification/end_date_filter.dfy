/** The first stage of the enhanced feed route (post_automation_integration.js):
    posts about events that have already ended are dropped before scoring. */
module EndDateFilter {
  import opened FeedModel

  /** `post.target_type === 'event' || post.event_id`. */
  predicate IsEventPost(p: Post) {
    p.targetType == "event" || p.eventId != ""
  }

  /** The filter callback: a non-event post, or an event post without an end
      date, is kept; otherwise the end date must not be before `today`. An end
      date `new Date` cannot read compares false, so such a post is dropped. */
  predicate Keep(p: Post, today: int) {
    if !IsEventPost(p) then true
    else match p.endDate
      case Absent => true
      case Unparsable => false
      case Instant(ms) => ms >= today
  }

  /** `posts.filter(post => Keep(post, today))`. */
  function FilterEnded(posts: seq<Post>, today: int): (r: seq<Post>)
    ensures |r| <= |posts|
    ensures forall p :: p in r ==> p in posts
    ensures forall i :: 0 <= i < |r| ==> !IsEventPost(r[i]) || r[i].endDate.Absent?
                                         || (r[i].endDate.Instant? && r[i].endDate.ms >= today)
    ensures forall p :: p in posts && !IsEventPost(p) ==> p in r
    ensures forall p :: p in posts && p.endDate.Absent? ==> p in r
  {
    if |posts| == 0 then []
    else (if Keep(posts[0], today) then [posts[0]] else []) + FilterEnded(posts[1..], today)
  }

  /** The filter keeps the relative order of what it keeps: filtering a
      concatenation filters each part. */
  lemma {:induction false} FilterAppend(a: seq<Post>, b: seq<Post>, today: int)
    ensures FilterEnded(a + b, today) == FilterEnded(a, today) + FilterEnded(b, today)
  {
    if |a| > 0 {
      FilterAppend(a[1..], b, today);
      assert (a + b)[1..] == a[1..] + b;
    } else {
      assert a + b == b;
    }
  }

  /** Each post is kept exactly as many times as it occurs when it passes, and
      never when it does not. */
  lemma {:induction false} FilterCounts(posts: seq<Post>, today: int, p: Post)
    ensures multiset(FilterEnded(posts, today))[p] == if Keep(p, today) then multiset(posts)[p] else 0
  {
    if |posts| > 0 {
      FilterCounts(posts[1..], today, p);
      var kept := if Keep(posts[0], today) then [posts[0]] else [];
      assert FilterEnded(posts, today) == kept + FilterEnded(posts[1..], today);
      assert multiset(posts) == multiset{posts[0]} + multiset(posts[1..]) by {
        assert posts == [posts[0]] + posts[1..];
      }
    }
  }

  /** Filtering twice is filtering once. */
  lemma {:induction false} FilterIdempotent(posts: seq<Post>, today: int)
    ensures FilterEnded(FilterEnded(posts, today), today) == FilterEnded(posts, today)
  {
    if |posts| > 0 {
      FilterIdempotent(posts[1..], today);
      var kept := if Keep(posts[0], today) then [posts[0]] else [];
      var rest := FilterEnded(posts[1..], today);
      assert FilterEnded(posts, today) == kept + rest;
      FilterAppend(kept, rest, today);
      assert FilterEnded(kept, today) == kept;
    }
  }

  /** An event that ended before today is dropped, whatever else it carries. */
  lemma EndedEventDropped(posts: seq<Post>, today: int, p: Post)
    requires IsEventPost(p) && p.endDate.Instant? && p.endDate.ms < today
    ensures p !in FilterEnded(posts, today)
  {
    FilterCounts(posts, today, p);
  }
}
