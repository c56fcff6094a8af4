/** The six sub-scores `EnhancedFeedAlgorithm` computes for a post and a viewer
    (post_automation_integration.js, `calculateBaseScore` to `isWeekdayContent`). */
module Scoring {
  import opened Common
  import opened Text
  import opened FeedModel

  // ---------------------------------------------------------------------------
  // Base score

  /** Number of the post's tags the viewer likes (a repeated tag counts each time). */
  function TagMatches(user: User, post: Post): nat {
    CountMembers(post.tags, user.likedTags)
  }

  /** `post.user_id || post.author_id`, "" when neither is set. */
  function Author(post: Post): string {
    if post.userId != "" then post.userId else post.authorId
  }

  /** Hours elapsed since the post was published; negative for a date in the future. */
  function HoursSince(now: int, postedAt: int): real {
    (now - postedAt) as real / 3600000.0
  }

  /** `Math.max(0, 20 - hoursSincePosted)`. */
  function Recency(now: int, postedAt: int): (r: real)
    ensures r >= 0.0
    ensures postedAt <= now ==> r <= 20.0
    ensures now - postedAt >= 20 * 3600000 ==> r == 0.0
    ensures now - postedAt < 20 * 3600000 ==> r == 20.0 - HoursSince(now, postedAt)
    ensures postedAt > now ==> r > 20.0
  {
    MaxReal(0.0, 20.0 - HoursSince(now, postedAt))
  }

  /** 10 per liked tag, 25 when the author is in the trusted circle, and a recency
      bonus fading from 20 to 0 over the first 20 hours. */
  function BaseScore(user: User, post: Post, now: int): real {
    10.0 * TagMatches(user, post) as real
    + (if Author(post) != "" && Author(post) in user.trustedCircle then 25.0 else 0.0)
    + Recency(now, post.postedAt)
  }

  /** The base score lies between 10 per liked tag and 45 above that, for a post
      not dated in the future; the trusted circle adds exactly 25. */
  lemma BaseScoreBounds(user: User, post: Post, now: int)
    requires post.postedAt <= now
    ensures 10.0 * TagMatches(user, post) as real <= BaseScore(user, post, now)
    ensures BaseScore(user, post, now) <= 10.0 * TagMatches(user, post) as real + 45.0
    ensures Author(post) != "" && Author(post) in user.trustedCircle ==>
              BaseScore(user, post, now) >= 10.0 * TagMatches(user, post) as real + 25.0
  {
  }

  /** Each further tag of a post adds 10 to its base score when the viewer likes
      it, and nothing otherwise. */
  lemma BaseScoreTag(user: User, post: Post, t: string, now: int)
    ensures BaseScore(user, post.(tags := post.tags + [t]), now)
            == BaseScore(user, post, now) + (if t in user.likedTags then 10.0 else 0.0)
  {
    CountMembersPush(post.tags, t, user.likedTags);
  }

  /** An older post never has a higher base score than an otherwise identical newer one. */
  lemma BaseScoreFavoursRecent(user: User, post: Post, now: int, earlier: int)
    requires earlier <= post.postedAt
    ensures BaseScore(user, post.(postedAt := earlier), now) <= BaseScore(user, post, now)
  {
    assert HoursSince(now, earlier) >= HoursSince(now, post.postedAt);
  }

  // ---------------------------------------------------------------------------
  // Interest score

  /** Number of interests occurring in the post's content, case-insensitively. */
  function ContentMatches(interests: seq<string>, content: string): (n: nat)
    ensures n <= |interests|
  {
    if |interests| == 0 then 0
    else (if Contains(Lower(content), Lower(interests[0])) then 1 else 0)
         + ContentMatches(interests[1..], content)
  }

  /** The leading segment of a hierarchical category such as "Théâtre » Comédie",
      white space trimmed; a category without '»' is kept as it is. */
  function MainCategory(cat: string): (r: string)
    ensures '»' !in cat ==> r == cat
    ensures '»' !in r
  {
    if '»' in cat then Trim(Split(cat, '»')[0]) else cat
  }

  /** Case-insensitive substring match in either direction. */
  predicate FuzzyMatch(a: string, b: string) {
    Contains(Lower(a), Lower(b)) || Contains(Lower(b), Lower(a))
  }

  /** Number of `catégorie` entries whose main category fuzzy-matches some interest. */
  function CategorieMatches(categories: seq<string>, interests: seq<string>): (n: nat)
    ensures n <= |categories|
  {
    if |categories| == 0 then 0
    else
      var main := MainCategory(categories[0]);
      (if exists i :: 0 <= i < |interests| && FuzzyMatch(main, interests[i]) then 1 else 0)
      + CategorieMatches(categories[1..], interests)
  }

  /** 15 per liked tag, 5 per interest found in the content, 10 per liked
      `category`, 10 per `catégorie` fuzzy-matching an interest. */
  function InterestScore(user: User, post: Post): int {
    15 * TagMatches(user, post)
    + 5 * ContentMatches(user.likedTags, post.content)
    + 10 * CountMembers(post.category, user.likedTags)
    + 10 * CategorieMatches(post.categorie, user.likedTags)
  }

  /** The interest score is at least 15 per liked tag and at most what every tag,
      interest and category matching would give. */
  lemma InterestScoreBounds(user: User, post: Post)
    ensures 15 * TagMatches(user, post) <= InterestScore(user, post)
    ensures InterestScore(user, post)
            <= 15 * |post.tags| + 5 * |user.likedTags| + 10 * |post.category| + 10 * |post.categorie|
  {
  }

  /** Each further tag of a post adds 15 to its interest score when the viewer
      likes it, and nothing otherwise. */
  lemma InterestScoreTag(user: User, post: Post, t: string)
    ensures InterestScore(user, post.(tags := post.tags + [t]))
            == InterestScore(user, post) + (if t in user.likedTags then 15 else 0)
  {
    CountMembersPush(post.tags, t, user.likedTags);
  }

  /** The hierarchy split keeps the trimmed text before the first '»'. */
  lemma MainCategoryHead(head: string, rest: string)
    requires '»' !in head
    ensures MainCategory(head + ['»'] + rest) == Trim(head)
  {
    SplitHead(head, '»', rest);
  }

  lemma MainCategoryExample()
    ensures MainCategory("Théâtre » Comédie") == "Théâtre"
  {
    var head := "Théâtre ";
    assert "Théâtre » Comédie" == head + ['»'] + " Comédie";
    MainCategoryHead(head, " Comédie");
    TrimTrailingSpace();
  }

  lemma TrimTrailingSpace()
    ensures Trim("Théâtre ") == "Théâtre"
  {
    assert TrimStart("Théâtre ") == "Théâtre ";
    assert TrimEnd("Théâtre ") == TrimEnd("Théâtre");
    assert TrimEnd("Théâtre") == "Théâtre";
  }

  // ---------------------------------------------------------------------------
  // Social score

  /** 30 when the viewer follows the author, 15 per like from a followed user,
      5 per mutual connection with the author. */
  function SocialScore(user: User, post: Post): (r: int)
    ensures r >= 15 * CountMembers(post.likes, user.following)
    ensures Author(post) == "" ==> r == 15 * CountMembers(post.likes, user.following)
    ensures Author(post) != "" && Author(post) in user.following ==>
              r >= 30 + 15 * CountMembers(post.likes, user.following)
  {
    var author := Author(post);
    (if author != "" && author in user.following then 30 else 0)
    + 15 * CountMembers(post.likes, user.following)
    + (if author != "" && author in user.mutualConnections then 5 * user.mutualConnections[author] else 0)
  }

  /** The follow bonus is 30 exactly when the author is followed. */
  lemma SocialScoreFollow(user: User, post: Post)
    ensures SocialScore(user, post) >= 0
    ensures Author(post) != "" && Author(post) in user.following ==> SocialScore(user, post) >= 30
    ensures user.following == [] ==>
              SocialScore(user, post)
              == (if Author(post) in user.mutualConnections && Author(post) != ""
                  then 5 * user.mutualConnections[Author(post)] else 0)
  {
  }

  /** Each further like adds 15 to the social score when it comes from a user
      the viewer follows, and nothing otherwise. */
  lemma SocialScoreLike(user: User, post: Post, id: string)
    ensures SocialScore(user, post.(likes := post.likes + [id]))
            == SocialScore(user, post) + (if id in user.following then 15 else 0)
  {
    CountMembersPush(post.likes, id, user.following);
  }

  /** Following one more user adds 30 when it is the author and 15 for each of
      that user's likes on the post; following someone twice adds nothing. */
  lemma SocialScoreNewFollow(user: User, post: Post, id: string)
    ensures SocialScore(user.(following := user.following + [id]), post)
            == SocialScore(user, post)
               + (if id in user.following then 0
                  else (if id == Author(post) && id != "" then 30 else 0)
                       + 15 * CountMembers(post.likes, [id]))
  {
    CountMembersWiden(post.likes, user.following, id);
  }

  // ---------------------------------------------------------------------------
  // Location score

  /** `postLocation.name || post.lieu || ''`. */
  function LocationName(post: Post): string {
    if post.place.Some? && post.place.value.name != "" then post.place.value.name else post.lieu
  }

  /** `loc.name && loc.name.includes(name) || name.includes(loc.name)`; a missing
      name reads as the string "undefined" in the second test. */
  predicate FrequentMatch(loc: Option<string>, name: string) {
    (loc.Some? && loc.value != "" && Contains(loc.value, name))
    || Contains(name, if loc.Some? then loc.value else "undefined")
  }

  predicate IsFrequentLocation(user: User, post: Post) {
    user.frequentLocations.Some?
    && exists i :: 0 <= i < |user.frequentLocations.value|
                   && FrequentMatch(user.frequentLocations.value[i], LocationName(post))
  }

  /** 0 without a viewer location or a post location; otherwise the distance term
      plus 25 when the place is among the viewer's frequent locations. */
  function LocationScore(user: User, post: Post): (r: real)
    ensures !user.hasLocation || post.place.None? ==> r == 0.0
    ensures user.hasLocation && post.place.Some? ==>
              (r == post.proximity.GetOr(0.0) + 25.0 <==> IsFrequentLocation(user, post))
    ensures user.hasLocation && post.place.Some? ==>
              (r == post.proximity.GetOr(0.0) <==> !IsFrequentLocation(user, post))
  {
    if !user.hasLocation || post.place.None? then 0.0
    else
      post.proximity.GetOr(0.0) + (if IsFrequentLocation(user, post) then 25.0 else 0.0)
  }

  /** A located post with no place name at all gets the frequent-location bonus as
      soon as the viewer has one named frequent location: every string includes "". */
  lemma UnnamedPlaceIsFrequent(user: User, post: Post, i: nat)
    requires user.hasLocation && post.place == Some(Place("")) && post.lieu == ""
    requires user.frequentLocations.Some? && i < |user.frequentLocations.value|
    requires user.frequentLocations.value[i].Some?
    ensures LocationScore(user, post) == post.proximity.GetOr(0.0) + 25.0
  {
    var loc := user.frequentLocations.value[i];
    assert IsPrefix("", loc.value);
    assert FrequentMatch(loc, LocationName(post));
  }

  /** One more frequent location never lowers the location score, and it adds 25
      to a located post that matched none before and matches the new one. */
  lemma LocationScoreMoreFrequent(user: User, post: Post, loc: Option<string>)
    requires user.frequentLocations.Some?
    ensures var u := user.(frequentLocations := Some(user.frequentLocations.value + [loc]));
            && LocationScore(user, post) <= LocationScore(u, post)
            && (user.hasLocation && post.place.Some? && !IsFrequentLocation(user, post)
                && FrequentMatch(loc, LocationName(post))
                ==> LocationScore(u, post) == LocationScore(user, post) + 25.0)
  {
    var fs := user.frequentLocations.value;
    var u := user.(frequentLocations := Some(fs + [loc]));
    if IsFrequentLocation(user, post) {
      var i :| 0 <= i < |fs| && FrequentMatch(fs[i], LocationName(post));
      assert (fs + [loc])[i] == fs[i];
    }
    if FrequentMatch(loc, LocationName(post)) {
      assert (fs + [loc])[|fs|] == loc;
    }
  }

  // ---------------------------------------------------------------------------
  // Engagement prediction

  /** `target_type || (producer_id ? 'producer' : event_id ? 'event' : 'user')`. */
  function ContentType(targetType: string, producerId: string, eventId: string): string {
    if targetType != "" then targetType
    else if producerId != "" then "producer"
    else if eventId != "" then "event"
    else "user"
  }

  function PostContentType(post: Post): string {
    ContentType(post.targetType, post.producerId, post.eventId)
  }

  /** Number of the viewer's likes and choices whose content type is `t`. */
  function TypeEngagementCount(history: seq<Interaction>, t: string): (n: nat)
    ensures n <= |history|
  {
    if |history| == 0 then 0
    else
      var i := history[0];
      (if ContentType(i.targetType, i.producerId, i.eventId) == t then 1 else 0)
      + TypeEngagementCount(history[1..], t)
  }

  /** `Math.min(typeEngagementCount * 5, 40)`. */
  function TypeEngagement(user: User, post: Post): (r: int)
    ensures 0 <= r <= 40
    ensures r == 40 <==> TypeEngagementCount(user.likedPosts + user.choices, PostContentType(post)) >= 8
    ensures TypeEngagementCount(user.likedPosts + user.choices, PostContentType(post)) < 8 ==>
              r == 5 * TypeEngagementCount(user.likedPosts + user.choices, PostContentType(post))
  {
    var n := 5 * TypeEngagementCount(user.likedPosts + user.choices, PostContentType(post));
    if n <= 40 then n else 40
  }

  /** `30 - 3 * days` for an event one to seven days away, nothing otherwise. */
  function TimingBonus(daysUntil: Option<int>): (r: int)
    ensures r == 0 || 9 <= r <= 27
    ensures r > 0 <==> daysUntil.Some? && 1 <= daysUntil.value <= 7
  {
    if daysUntil.Some? && 0 < daysUntil.value <= 7 then 30 - 3 * daysUntil.value else 0
  }

  /** The bonus shrinks as the event gets further away, and an event tomorrow gets
      27, not the 30 the source's comment announces. */
  lemma TimingBonusDecreases(d: int, e: int)
    requires 1 <= d < e <= 7
    ensures TimingBonus(Some(d)) > TimingBonus(Some(e))
    ensures TimingBonus(Some(1)) == 27 && TimingBonus(Some(2)) == 24
  {
  }

  function EngagementScore(user: User, post: Post): (r: int)
    ensures 0 <= r <= 67
  {
    TypeEngagement(user, post) + TimingBonus(post.daysUntilEvent)
  }

  // ---------------------------------------------------------------------------
  // Contextual score

  /** Which meal-time slots a post is about. */
  datatype TimeFlags = TimeFlags(morning: bool, lunch: bool, evening: bool)

  /** `a || b || c || ''` on strings. */
  function FirstPresent(a: string, b: string, c: string): string {
    if a != "" then a else if b != "" then b else c
  }

  /** The lower-cased text and title, joined by a space. */
  function CombinedText(post: Post): string {
    Lower(FirstPresent(post.content, post.description, post.detail)) + " "
    + Lower(FirstPresent(post.title, post.intitule, ""))
  }

  const MorningKeywords: seq<string> := ["matin", "petit-déjeuner", "café", "brunch"]
  const LunchKeywords: seq<string> := ["déjeuner", "midi", "lunch"]
  const EveningKeywords: seq<string> := ["soir", "dîner", "nuit", "afterwork"]
  const WeekendKeywords: seq<string> := ["weekend", "samedi", "dimanche", "fin de semaine"]
  const WeekdayKeywords: seq<string> := ["semaine", "lundi", "mardi", "mercredi", "jeudi", "vendredi"]

  predicate MentionsAny(text: string, keywords: seq<string>) {
    exists i :: 0 <= i < |keywords| && Contains(text, keywords[i])
  }

  /** The meal slot an hour falls in: 6-11 morning, 11-14 lunch, 18-23 evening. */
  function HourSlot(hour: int): (r: Option<TimeFlags>)
    ensures r.Some? <==> (6 <= hour < 14 || 18 <= hour < 23)
    ensures r.Some? ==> (r.value.morning <==> 6 <= hour < 11)
                        && (r.value.lunch <==> 11 <= hour < 14)
                        && (r.value.evening <==> 18 <= hour < 23)
  {
    if 6 <= hour < 11 then Some(TimeFlags(true, false, false))
    else if 11 <= hour < 14 then Some(TimeFlags(false, true, false))
    else if 18 <= hour < 23 then Some(TimeFlags(false, false, true))
    else None
  }

  /** The start hour of a "HH:MM - HH:MM" range: `parseInt(range.split('-')[0].trim().split(':')[0])`;
      None when the range has no '-' or the hour is not a number. */
  function StartHour(heure: string): Option<int> {
    if '-' in heure then ParseInt(Split(Trim(Split(heure, '-')[0]), ':')[0]) else None
  }

  /** The start hour of the post's first schedule entry, when it has one. */
  function ScheduleHour(post: Post): Option<int> {
    if |post.horaires| > 0 && post.horaires[0].heure != "" then StartHour(post.horaires[0].heure)
    else None
  }

  /** The post's text names a meal time. */
  predicate MentionsMealTime(post: Post) {
    var text := CombinedText(post);
    MentionsAny(text, MorningKeywords) || MentionsAny(text, LunchKeywords)
    || MentionsAny(text, EveningKeywords)
  }

  /** `hasTimeContext`: keywords first, then the first schedule entry's start hour,
      then the event's own hour. */
  function TimeContext(post: Post): (r: Option<TimeFlags>)
    ensures r.Some? ==> r.value.morning || r.value.lunch || r.value.evening
    ensures MentionsMealTime(post) ==>
              && r.Some?
              && (r.value.morning <==> MentionsAny(CombinedText(post), MorningKeywords))
              && (r.value.lunch <==> MentionsAny(CombinedText(post), LunchKeywords))
              && (r.value.evening <==> MentionsAny(CombinedText(post), EveningKeywords))
    ensures !MentionsMealTime(post) && ScheduleHour(post).Some?
            && HourSlot(ScheduleHour(post).value).Some? ==>
              r == HourSlot(ScheduleHour(post).value)
    ensures !MentionsMealTime(post) && (ScheduleHour(post).None? || HourSlot(ScheduleHour(post).value).None?)
            && post.eventHour.Some? ==>
              r == HourSlot(post.eventHour.value)
    ensures !MentionsMealTime(post) && (ScheduleHour(post).None? || HourSlot(ScheduleHour(post).value).None?)
            && post.eventHour.None? ==>
              r.None?
  {
    var text := CombinedText(post);
    var morning := MentionsAny(text, MorningKeywords);
    var lunch := MentionsAny(text, LunchKeywords);
    var evening := MentionsAny(text, EveningKeywords);
    if morning || lunch || evening then Some(TimeFlags(morning, lunch, evening))
    else
      var h := ScheduleHour(post);
      var fromSchedule := if h.Some? then HourSlot(h.value) else None;
      if fromSchedule.Some? then fromSchedule
      else if post.eventHour.Some? then HourSlot(post.eventHour.value)
      else None
  }

  /** A schedule day label mentions one of the given day stems. */
  predicate DayMentions(slots: seq<Slot>, stems: seq<string>) {
    exists i, j :: 0 <= i < |slots| && 0 <= j < |stems|
                   && slots[i].jour != "" && Contains(Lower(slots[i].jour), stems[j])
  }

  /** `isWeekendContent`: a Saturday or Sunday schedule entry, or a weekend keyword. */
  predicate IsWeekendContent(post: Post) {
    DayMentions(post.horaires, ["sam", "dim"]) || MentionsAny(CombinedText(post), WeekendKeywords)
  }

  /** `isWeekdayContent`: a Monday-to-Friday schedule entry, or a weekday keyword. */
  predicate IsWeekdayContent(post: Post) {
    DayMentions(post.horaires, ["lun", "mar", "mer", "jeu", "ven"])
    || MentionsAny(CombinedText(post), WeekdayKeywords)
  }

  /** Two sets of meal-time flags have a slot in common. */
  predicate SharesSlot(a: TimeFlags, b: TimeFlags) {
    (a.morning && b.morning) || (a.lunch && b.lunch) || (a.evening && b.evening)
  }

  /** 15 when the current hour falls in a meal slot the post is about. */
  function TimeOfDayScore(post: Post, hour: int): (r: int)
    ensures r == 0 || r == 15
    ensures r == 15 <==> TimeContext(post).Some? && HourSlot(hour).Some?
                         && SharesSlot(TimeContext(post).value, HourSlot(hour).value)
  {
    var ctx := TimeContext(post);
    if ctx.Some? && ((6 <= hour < 11 && ctx.value.morning) || (11 <= hour < 14 && ctx.value.lunch)
                     || (18 <= hour < 23 && ctx.value.evening))
    then 15 else 0
  }

  /** 20 for weekend content at the weekend, 15 for weekday content on a weekday. */
  function DayOfWeekScore(post: Post, weekday: int): (r: int)
    ensures r == 0 || r == 15 || r == 20
    ensures r == 20 <==> (weekday == 0 || weekday == 6) && IsWeekendContent(post)
    ensures r == 15 <==> !(weekday == 0 || weekday == 6) && IsWeekdayContent(post)
  {
    var isWeekend := weekday == 0 || weekday == 6;
    if isWeekend && IsWeekendContent(post) then 20
    else if !isWeekend && IsWeekdayContent(post) then 15
    else 0
  }

  /** `calculateContextualRelevance`: the meal-time bonus plus the day-of-week bonus. */
  function ContextualScore(post: Post, clock: Clock): (r: int)
    ensures 0 <= r <= 35
  {
    TimeOfDayScore(post, clock.hour) + DayOfWeekScore(post, clock.weekday)
  }

  /** A schedule entry whose day label names Saturday or Sunday makes the post
      weekend content, worth 20 at the weekend; one naming a weekday makes it
      weekday content, worth 15 from Monday to Friday. */
  lemma ScheduleDayMarksContent(post: Post, i: int, weekday: int)
    requires 0 <= i < |post.horaires|
    ensures var day := Lower(post.horaires[i].jour);
            (Contains(day, "sam") || Contains(day, "dim")) ==>
              IsWeekendContent(post) && (weekday == 0 || weekday == 6 ==> DayOfWeekScore(post, weekday) == 20)
    ensures var day := Lower(post.horaires[i].jour);
            (Contains(day, "lun") || Contains(day, "mar") || Contains(day, "mer")
             || Contains(day, "jeu") || Contains(day, "ven")) ==>
              IsWeekdayContent(post) && (1 <= weekday <= 5 ==> DayOfWeekScore(post, weekday) == 15)
  {
    var day := Lower(post.horaires[i].jour);
    var weekendStems := ["sam", "dim"];
    var weekdayStems := ["lun", "mar", "mer", "jeu", "ven"];
    if Contains(day, "sam") || Contains(day, "dim") {
      assert post.horaires[i].jour != "";
      var j := if Contains(day, "sam") then 0 else 1;
      assert Contains(day, weekendStems[j]);
    }
    if Contains(day, "lun") || Contains(day, "mar") || Contains(day, "mer")
       || Contains(day, "jeu") || Contains(day, "ven") {
      assert post.horaires[i].jour != "";
      var j := if Contains(day, "lun") then 0 else if Contains(day, "mar") then 1
               else if Contains(day, "mer") then 2 else if Contains(day, "jeu") then 3 else 4;
      assert Contains(day, weekdayStems[j]);
    }
  }

  /** Text mentioning "fin de semaine" is both weekend and weekday content, since it
      contains "semaine". */
  lemma FinDeSemaineIsBoth(post: Post)
    requires Contains(CombinedText(post), "fin de semaine")
    ensures IsWeekendContent(post) && IsWeekdayContent(post)
  {
    FinDeSemaineMentions(CombinedText(post));
  }

  lemma FinDeSemaineMentions(text: string)
    requires Contains(text, "fin de semaine")
    ensures MentionsAny(text, WeekendKeywords) && MentionsAny(text, WeekdayKeywords)
  {
    assert WeekendKeywords[3] == "fin de semaine";
    ContainsAt(text, "fin de semaine");
    var i :| OccursAt(text, "fin de semaine", i);
    SemaineInside(text, i);
    ContainsAt(text, "semaine");
    assert WeekdayKeywords[0] == "semaine";
  }

  lemma SemaineInside(text: string, i: int)
    requires OccursAt(text, "fin de semaine", i)
    ensures OccursAt(text, "semaine", i + 7)
  {
    assert text[i + 7..i + 14] == text[i..i + 14][7..];
    assert "fin de semaine"[7..] == "semaine";
  }

  // ---------------------------------------------------------------------------
  // The combined score

  /** Every sub-score of a post. */
  function ScoreComponents(user: User, post: Post, clock: Clock): Components {
    Components(
      BaseScore(user, post, clock.now),
      InterestScore(user, post),
      SocialScore(user, post),
      LocationScore(user, post),
      EngagementScore(user, post),
      ContextualScore(post, clock))
  }

  /** base + 0.3 interest + 0.25 social + 0.2 location + 0.15 engagement + 0.1 contextual. */
  function Weighted(c: Components): (r: real)
    ensures (c.interest >= 0 && c.social >= 0 && c.location >= 0.0 && c.engagement >= 0
             && c.contextual >= 0) ==> r >= c.base
    ensures (c.interest == 0 && c.social == 0 && c.location == 0.0 && c.engagement == 0
             && c.contextual == 0) ==> r == c.base
  {
    c.base + 0.3 * c.interest as real + 0.25 * c.social as real + 0.2 * c.location
    + 0.15 * c.engagement as real + 0.1 * c.contextual as real
  }

  /** Raising any sub-score never lowers the relevance, and a higher base score
      with no other sub-score lower gives a strictly higher relevance. */
  lemma WeightedMonotone(c: Components, d: Components)
    requires c.interest <= d.interest && c.social <= d.social && c.location <= d.location
    requires c.engagement <= d.engagement && c.contextual <= d.contextual
    ensures c.base <= d.base ==> Weighted(c) <= Weighted(d)
    ensures c.base < d.base ==> Weighted(c) < Weighted(d)
  {
  }
}
