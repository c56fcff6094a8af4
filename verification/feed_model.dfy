/** The records the enhanced feed works on.

    Posts come from three databases and have no fixed schema; each optional
    field the feed code reads becomes one field here. A string field holds ""
    when the post does not have it (every test the feed makes on such a field is
    a JavaScript truthiness test, for which a missing field and "" agree), and a
    list field holds [] when it is missing. */
module FeedModel {
  import opened Common

  /** One entry of a post's `horaires`: a day label and a time range such as "19:00 - 23:00". */
  datatype Slot = Slot(jour: string, heure: string)

  /** `post.event_end_date || post.date_fin` as `new Date(..)` reads it. */
  datatype DateField = Absent | Unparsable | Instant(ms: int)

  /** `post.location`, or a location made from `post.coordinates`; `name` is "" when it has none. */
  datatype Place = Place(name: string)

  datatype Post = Post(
    id: string,
    targetType: string,          // target_type
    producerId: string,          // producer_id
    eventId: string,             // event_id
    userId: string,              // user_id
    authorId: string,            // author_id
    title: string,               // title
    intitule: string,            // intitulé (event title in the culture database)
    content: string,             // content
    description: string,         // description
    detail: string,              // détail
    tags: seq<string>,
    category: seq<string>,       // category, a single value as a one-element list
    categorie: seq<string>,      // catégorie, a single value as a one-element list
    likes: seq<string>,          // ids of the users who liked the post
    postedAt: int,               // posted_at || time_posted, in milliseconds
    place: Option<Place>,
    lieu: string,                // lieu, the venue name fallback
    proximity: Option<real>,     // 100 * e^(-0.1 * distance) when both coordinate pairs exist
    horaires: seq<Slot>,
    eventHour: Option<int>,      // local hour of event_date || date_debut, None when absent or invalid
    daysUntilEvent: Option<int>, // ceil of the days from now to the parsed event date, None when unparsable
    endDate: DateField)

  /** A post with only an id: every optional field missing. */
  function BarePost(id: string): Post {
    Post(id, "", "", "", "", "", "", "", "", "", "", [], [], [], [], 0,
         None, "", None, [], None, None, Absent)
  }

  /** An entry of the viewer's `liked_posts` or `choices`. */
  datatype Interaction = Interaction(targetType: string, producerId: string, eventId: string)

  /** The viewing user. */
  datatype User = User(
    likedTags: seq<string>,                         // liked_tags, also the interest list
    trustedCircle: seq<string>,                     // trusted_circle
    following: seq<string>,
    mutualConnections: map<string, nat>,            // mutual_connections
    hasLocation: bool,                              // user.location is present
    frequentLocations: Option<seq<Option<string>>>, // frequent_locations when it is an array; entry = its name
    likedPosts: seq<Interaction>,                   // liked_posts
    choices: seq<Interaction>,
    engagementStats: Option<Quad<nat>>)             // engagement_stats, a missing count read as 0

  /** A viewer with no history at all. */
  function NewUser(): User {
    User([], [], [], map[], false, None, [], [], None)
  }

  /** The four buckets of the diversity step, in the order the source declares them. */
  datatype PostType = ProducerPost | EventPost | UserPost | OtherPost

  const TypeOrder: seq<PostType> := [ProducerPost, EventPost, UserPost, OtherPost]

  /** One value per post type: the shape of the `{producer, event, user, other}`
      objects the diversity step builds. */
  datatype Quad<X> = Quad(producer: X, event: X, user: X, other: X) {

    function Get(t: PostType): X {
      match t
      case ProducerPost => producer
      case EventPost => event
      case UserPost => user
      case OtherPost => other
    }

    function Set(t: PostType, v: X): (q: Quad<X>)
      ensures q.Get(t) == v
      ensures forall u :: u != t ==> q.Get(u) == Get(u)
    {
      match t
      case ProducerPost => this.(producer := v)
      case EventPost => this.(event := v)
      case UserPost => this.(user := v)
      case OtherPost => this.(other := v)
    }
  }

  /** `Get` on each of the four types. */
  lemma QuadFields<X>(q: Quad<X>)
    ensures q.Get(ProducerPost) == q.producer && q.Get(EventPost) == q.event
    ensures q.Get(UserPost) == q.user && q.Get(OtherPost) == q.other
  {
  }

  function SumInt(q: Quad<int>): int {
    q.producer + q.event + q.user + q.other
  }

  function SumReal(q: Quad<real>): real {
    q.producer + q.event + q.user + q.other
  }

  /** The clock readings the feed takes from `new Date()`: milliseconds since the
      epoch, the local hour and the local day of the week (0 = Sunday). */
  datatype Clock = Clock(now: int, hour: int, weekday: int)

  /** The six sub-scores of a post. */
  datatype Components = Components(
    base: real, interest: int, social: int, location: real, engagement: int, contextual: int)

  /** `{...post, relevance_score, score_components}`. */
  datatype ScoredPost = ScoredPost(post: Post, relevance: real, components: Components)
}
