# Enhanced feed and producer auto-posts — a Dafny model

This project models two parts of the Choice app's post automation backend.

**The enhanced feed.** The `/enhanced` route of `EnhancedFeedAlgorithm`
(`post_automation_integration.js`) builds a viewer's feed. It starts once the
viewer and the posts of the three databases (`choice_app`,
`Restauration_Officielle`, `Loisir&Culture`) are fetched. The steps are:

- it drops event posts whose end date has passed;
- it gives every post six sub-scores: base, interest, social, location,
  predicted engagement and context;
- it ranks the posts by the weighted sum of those scores, with a stable sort;
- it rearranges the ranking by post type (producer, event, user, other)
  towards a target distribution, taking the types in turn, round-robin, up to
  each type's quota;
- it answers with the first `limit` posts.

**Producer auto-posts.** The `AutoPostGenerator` (`auto_post_generator.js`)
contributes:

- the two date readers (`parseEventDate` and `parseEventDateFromHoraires`);
- the choice of a producer post's focus area;
- the choice of its media.

The random draw is a parameter in [0, 1).

Modules, one per file:

| module | contents |
| --- | --- |
| `Common` | `Option`, `Round` (JavaScript's `Math.round`) and small helpers |
| `Text` | strings: split and join, `parseInt`, lower case, trim, substring search |
| `StableSort` | a stable sort, largest key first |
| `FeedModel` | posts, viewers, the clock, the per-type `Quad` |
| `EndDateFilter` | the end-date filter |
| `Scoring` | the six sub-scores and their weights |
| `Ranking` | `applyEnhancedScoring` |
| `Diversity` | grouping by type, target distribution, quota counts |
| `Interleave` | the interleaving loop of `redistributePosts`, as a state machine |
| `Diversify` | `applyDiversityAdjustment` |
| `FeedRoute` | the route |
| `EventDates` | the date readers |
| `ProducerFocus` | focus area and media |

JavaScript details are modelled explicitly:

- An absent string field is `""` (falsy).
- A `NaN` from `parseInt` is `None`.
- `Math.round` rounds halves up.
- `new Date(y, m, d)` is kept as its unnormalised arguments.
- A lookup of an `Object.prototype` key in an object literal yields an
  inherited member, not `undefined`.

## Model

| member | source | states |
|---|---|---|
| EndDateFilter.FilterEnded | post_automation_integration.js:394-410 | The kept posts come from the input. Every kept event post has no end date or an end date not before today. Every non-event post is kept, and so is every post without an end date. |
| EndDateFilter.FilterAppend | post_automation_integration.js:394 | Filtering the three databases' posts together equals filtering each and concatenating, so the relative order is preserved. |
| EndDateFilter.FilterCounts | post_automation_integration.js:394-410 | A post occurs in the result exactly as often as in the input when it passes the filter, and never when it does not. |
| EndDateFilter.FilterIdempotent | post_automation_integration.js:394-410 | Filtering twice gives the same result as filtering once. |
| EndDateFilter.EndedEventDropped | post_automation_integration.js:408-409 | An event post whose end date is before today never reaches the feed. |
| Scoring.Recency | post_automation_integration.js:508-510 | The recency bonus is never negative. Within 20 hours of publication it is exactly 20 minus the hours elapsed, and it is 0 once 20 hours have passed. It is at most 20 for a post from the past and more than 20 for a post dated in the future. |
| Scoring.BaseScoreBounds | post_automation_integration.js:495-513 | For a post not dated in the future, the base score is between 10 per liked tag and 45 more than that. The trusted-circle bonus adds at least 25. |
| Scoring.BaseScoreTag | post_automation_integration.js:498-501 | Each further tag adds 10 to the base score when the viewer likes it, and nothing otherwise. |
| Scoring.BaseScoreFavoursRecent | post_automation_integration.js:508-510 | Of two otherwise identical posts, the older one never has a higher base score. |
| Scoring.InterestScoreTag | post_automation_integration.js:529-531 | Each further tag adds 15 to the interest score when the viewer likes it, and nothing otherwise. |
| Scoring.InterestScoreBounds | post_automation_integration.js:521-572 | The interest score is at least 15 per liked tag and at most the sum of every tag, interest and category bonus. |
| Scoring.MainCategoryHead | post_automation_integration.js:553-559 | A hierarchical category keeps only its trimmed text before the first '»'. |
| Scoring.MainCategoryExample | post_automation_integration.js:553-559 | "Théâtre » Comédie" is matched as "Théâtre". |
| Scoring.SocialScore | post_automation_integration.js:580-605 | The social score is at least 15 per like from a followed user, and exactly that when the post has no author. It is at least 30 more when the viewer follows the author. |
| Scoring.SocialScoreLike | post_automation_integration.js:591-596 | Each further like adds 15 when it comes from a followed user, and nothing otherwise. |
| Scoring.SocialScoreNewFollow | post_automation_integration.js:583-596 | Following one more user adds 30 when that user is the author, plus 15 for each of their likes on the post. Following someone already followed adds nothing. |
| Scoring.SocialScoreFollow | post_automation_integration.js:580-605 | The social score is never negative. It is at least 30 when the viewer follows the author. A viewer who follows nobody gets only the mutual-connection term, 5 per mutual connection with the author. |
| Scoring.LocationScore | post_automation_integration.js:613-658 | The location score is 0 unless both the viewer and the post have a location. Otherwise it is the proximity term plus 25 exactly when the place is one of the viewer's frequent locations. |
| Scoring.LocationScoreMoreFrequent | post_automation_integration.js:644-655 | One more frequent location never lowers the location score. It adds exactly 25 to a located post that matched no frequent location before and matches the new one. |
| Scoring.UnnamedPlaceIsFrequent | post_automation_integration.js:645-655 | A located post with no place name earns the 25-point frequent-location bonus as soon as one frequent location has a name, since every string includes "". |
| Scoring.TypeEngagement | post_automation_integration.js:670-692 | The type-engagement term is between 0 and 40. Below eight past likes or choices of the post's type it is 5 per such interaction, and from eight on it is 40. |
| Scoring.TimingBonus | post_automation_integration.js:732-739 | The event-timing bonus is positive exactly for an event 1 to 7 days away, and then lies between 9 and 27. |
| Scoring.TimingBonusDecreases | post_automation_integration.js:732-739 | A nearer event gets a strictly larger bonus. An event tomorrow gets 27. |
| Scoring.EngagementScore | post_automation_integration.js:666-744 | The predicted engagement is between 0 and 67. |
| Scoring.HourSlot | post_automation_integration.js:769-784 | An hour is in a meal slot exactly when it is in 6-14 or 18-23, and 6-11 is the morning slot. |
| Scoring.TimeContext | post_automation_integration.js:804-859 | When the text names a meal time, the context flags exactly the slots whose keywords occur. Otherwise the first schedule entry's start hour decides when it falls in a slot. Failing that, the event's own hour decides. Without either there is no context. Any time context names at least one slot. |
| Scoring.TimeOfDayScore | post_automation_integration.js:766-785 | The meal-time bonus is 0 or 15. It is 15 exactly when the current hour falls in a meal slot that the post's time context flags. |
| Scoring.DayOfWeekScore | post_automation_integration.js:787-794 | The day bonus is 20 exactly for weekend content at the weekend, and 15 exactly for weekday content on a weekday. |
| Scoring.ContextualScore | post_automation_integration.js:752-797 | The contextual score is between 0 and 35. |
| Scoring.ScheduleDayMarksContent | post_automation_integration.js:866-913 | A schedule day label containing "sam" or "dim" makes weekend content, worth 20 at the weekend. One containing "lun", "mar", "mer", "jeu" or "ven" makes weekday content, worth 15 from Monday to Friday. |
| Scoring.FinDeSemaineIsBoth | post_automation_integration.js:866-913 | Text mentioning "fin de semaine" counts as both weekend and weekday content. |
| Scoring.Weighted | post_automation_integration.js:463-467 | The relevance is never below the base score when every other sub-score is non-negative, and equals it when they are all 0. |
| Scoring.WeightedMonotone | post_automation_integration.js:463-467 | Raising any sub-score never lowers the relevance, and a strictly higher base score with no other sub-score lower gives a strictly higher relevance. |
| Ranking.ScoreAll | post_automation_integration.js:451-482 | Item i of the result is post i with its own six sub-scores and weighted sum. |
| Ranking.ApplyEnhancedScoring | post_automation_integration.js:447-486 | The result is a permutation of the scored posts, sorted by relevance with the highest first. Posts with equal scores keep their input order. Every item is an input post carrying its own scores. |
| Ranking.RankingKeepsPosts | post_automation_integration.js:451-482 | Each post is scored exactly as many times as it occurs. |
| Ranking.HigherScoreFirst | post_automation_integration.js:485 | In the ranking, a strictly higher score always comes strictly earlier. |
| Ranking.BetterOfTwoFirst | post_automation_integration.js:447-486 | Of two posts, the one with the higher relevance is ranked first even when it was fetched second. |
| Ranking.TagsOnlyInBaseAndInterest | post_automation_integration.js:453-460 | A post's tags affect only its base and interest scores. |
| Ranking.LikedTagGap | post_automation_integration.js:463-467 | For any post and any tag the viewer likes, one more occurrence of that tag is worth 10 + 0.3·15 = 14.5 relevance points. |
| Ranking.LikedTagRanksFirst | post_automation_integration.js:447-486 | A post with one more liked tag outranks an otherwise identical post, even when it was fetched second. |
| StableSort.SortDesc | post_automation_integration.js:485 | The sort gives a permutation of its input, in non-increasing key order. The items with any given key keep their relative order. |
| Diversity.GroupPostsByType | post_automation_integration.js:941-962 | Each bucket holds exactly the posts of its type, in ranked order. Together the buckets hold every post exactly once. |
| Diversity.TypesPartition | post_automation_integration.js:949-959 | Every post falls into exactly one of the four types. |
| Diversity.OfTypeAppend | post_automation_integration.js:949-959 | Grouping a concatenation concatenates the groups. |
| Diversity.Normalize | post_automation_integration.js:1001-1008 | Normalizing makes the four shares sum to 1 and keeps each share's ratio to the old sum and its sign. |
| Diversity.PreferredDistribution | post_automation_integration.js:972-1010 | The preferred shares sum to 1, and producer, event and user each get a positive share. The 0.15, 0.15 and 0.1 minimums survive normalisation divided by at most 1.4, the largest the raised sum can reach: producer and event keep at least 0.15/1.4 and user at least 0.1/1.4. Without engagement stats, or with a zero total, the defaults apply. "Other" gets 0 exactly when stats with a positive total record no "other" engagement. |
| Diversity.Capped | post_automation_integration.js:1012-1019 | Each share is capped at the type's fraction of the posts. |
| Diversity.CappedSumZero | post_automation_integration.js:1012-1026 | The capped shares sum to 0 exactly when stats with a positive total record no "other" engagement and every post is of type "other". |
| Diversity.TargetDistributionAsWritten | post_automation_integration.js:1021-1026 | When the capped sum is positive, each share is its capped share divided by the sum of the capped shares, so the shares sum to 1 and are not negative. The result is NaN exactly when the capped sum is 0. That happens exactly when stats with a positive total record no "other" engagement and every post is of type "other". |
| Diversity.Floored | post_automation_integration.js:991-999 | The floored engagement shares are at least 0.15, 0.15 and 0.1 for producer, event and user. "Other" gets 0 exactly when there is no "other" engagement. |
| Diversity.PreferredFromStats | post_automation_integration.js:989-1008 | With engagement history, each preferred share is the viewer's floored engagement share for that type divided by the sum of the floored shares. |
| Diversity.PreferredFollowsEngagement | post_automation_integration.js:989-1008 | A viewer with at least as many event as producer engagements gets an event share at least the producer share, and the other way round. |
| Diversity.FlooredSum | post_automation_integration.js:991-1003 | Raising the producer, event and user engagement shares to 0.15, 0.15 and 0.1 gives a sum of at most 1.4. |
| Diversity.NormalizedFloors | post_automation_integration.js:997-1008 | Dividing shares of at least 0.15, 0.15 and 0.1 by a sum of at most 1.4 leaves at least 0.15/1.4, 0.15/1.4 and 0.1/1.4. |
| Diversity.TargetDistribution | post_automation_integration.js:970-1029 | The shares sum to 1 and give nothing to an empty bucket. The result agrees with the source wherever the source does not divide by zero. |
| Diversity.AsWrittenEmptyBuckets | post_automation_integration.js:1016-1026 | An empty bucket gets a share of 0. |
| Diversity.RenormalisationExceedsShare | post_automation_integration.js:1021-1026 | With 9 producer posts and 1 event post and no stats, renormalising raises the event share to 2/9, above the bucket's 1/10. |
| Diversity.AllOtherDividesByZero | post_automation_integration.js:1021-1026 | Stats of (3, 0, 0, 0) with four "other" posts make the source divide 0 by 0. |
| Diversity.QuotaCounts | post_automation_integration.js:1041-1076 | When the rounded counts exceed the number of posts, the final counts sum to exactly that number. Otherwise they are the rounded counts. |
| Diversity.Rebalance | post_automation_integration.js:1050-1076 | Counts above the total are brought back to exactly the total. Counts within it are unchanged. |
| Diversity.ScaledDownBounds | post_automation_integration.js:1052-1058 | The floors after the proportional scaling sum to at most the total, and leave a shortfall of less than 4. |
| Diversity.RebalanceShortfall | post_automation_integration.js:1050-1076 | After scaling, each type gets at most one extra post from the top-up. |
| Diversity.TopUpOnce | post_automation_integration.js:1072-1074 | The top-up adds one post to each of the first `diff` types in the order, and nothing to the others. |
| Diversity.GapOrder | post_automation_integration.js:1063-1070 | The top-up order is a permutation of the four types. |
| Diversity.GapOrderSorted | post_automation_integration.js:1063-1070 | The top-up order sorts the types by their shortfall against the target, largest first. |
| Diversity.TopUpByGap | post_automation_integration.js:1061-1075 | The top-up adds exactly `diff` posts and never lowers a count. |
| Diversity.TopUpByGapOnce | post_automation_integration.js:1072-1074 | No type gets more than one extra post from a top-up of fewer than four. |
| Diversity.QuotaCountsNonNegative | post_automation_integration.js:1041-1076 | Non-negative shares give non-negative counts. |
| Diversity.RoundedCountsMayFallShort | post_automation_integration.js:1041-1050 | Five posts at a quarter each round to counts of (1, 1, 1, 1), one short of five, and no top-up happens. |
| Diversity.QuotaExceedsBucket | post_automation_integration.js:1041-1076 | With 9 producer posts and 1 event post and no stats, the counts are (8, 2, 0, 0), so the event count exceeds its bucket. |
| Diversity.ClampToBuckets | post_automation_integration.js:1088 | Clamped quotas fit their buckets and leave every quota that already fitted unchanged. |
| Interleave.RunRoundRobin | post_automation_integration.js:1085-1108 | With quotas that fit, every iteration of the loop keeps the result equal to the finished rounds plus the current round's prefix. Each type's remaining quota matches the posts taken so far. Once the loop stops, its result is the round-robin. |
| Interleave.RoundRobinAlternates | post_automation_integration.js:1085-1108 | Two producer posts and two event posts with quotas of two each come out as producer, event, producer, event. |
| Interleave.Interleave | post_automation_integration.js:1078-1110 | For quotas that fit their buckets, the loop stops. The result is the round-robin `Interleave.RoundRobin`: round j takes the j-th post of every type whose quota exceeds j, in the order producer, event, user, other, and the leftovers follow in type order. The result holds every grouped post exactly once. The result opens with each type's first `quota` posts and ends with the leftovers in type order. Each type's posts keep their bucket order. |
| Interleave.NeverHalts | post_automation_integration.js:1085-1108 | Some type's remaining quota exceeds its bucket while another type still holds posts beyond its quota. From such a state, no number of iterations ends the loop. |
| Interleave.StepStaysStuck | post_automation_integration.js:1085-1108 | One iteration from that stuck state neither breaks nor fills the result, and stays stuck. |
| Interleave.StepInv | post_automation_integration.js:1086-1107 | Each iteration keeps the conservation invariant: each bucket's unread tail, the posts placed so far and the remaining quotas always agree. |
| Interleave.StepProgress | post_automation_integration.js:1088-1099 | A round that ends with quota left has used at least one quota, so the loop cannot go round forever when the quotas fit. |
| Interleave.HaltedArranged | post_automation_integration.js:1085-1110 | However the loop stops, by the `break` or by a full result, the result is the finished arrangement of every post. |
| Interleave.ArrangedKeepsOrder | post_automation_integration.js:1078-1110 | In the finished arrangement each type's posts appear in their bucket order. |
| Diversify.ApplyDiversityAdjustment | post_automation_integration.js:921-934 | Three posts or fewer come back unchanged. Otherwise the result is the round-robin `Interleave.RoundRobin` of the ranked posts grouped by type, with the corrected quotas. It is a permutation of the ranking. Each type's posts keep their ranked order. The result opens with each type's top `quota` posts and ends with the leftovers. |
| Diversify.SourceQuotas | post_automation_integration.js:1029-1076 | The quotas computed from `Diversity.TargetDistribution` are never negative. They are the source's quotas wherever `Diversity.TargetDistributionAsWritten` is defined. |
| Diversify.Quotas | post_automation_integration.js:1029-1076 | The quotas fit their buckets and equal the source's quotas wherever those already fit. |
| Diversify.QuotasAsWritten | post_automation_integration.js:1041-1076 | When every source quota fits its bucket, the model uses exactly the source's quotas. |
| Diversify.Buckets | post_automation_integration.js:941-962 | The buckets are the posts of each type, and together they hold as many posts as the ranking. |
| Diversify.NinePlusOneNeverStops | post_automation_integration.js:1016-1108 | With 9 producer posts and 1 event post and no engagement stats, the source's quotas are 8 and 2 and the loop never stops. |
| FeedRoute.EnhancedFeed | post_automation_integration.js:346-436 | A missing user id gives 400 and an unknown user gives 404. Otherwise the feed is a prefix of `Diversify.Diversified`, the round-robin diversified ranking of the posts the end-date filter keeps. It holds the first `limit` posts of that ranking, or all of them if there are fewer. Each post carries its own scores. Each type's posts form a prefix of that type's ranked posts. The total counts the kept posts, and `has_more` compares that total with `page·limit`. |
| FeedRoute.DiversifyRanking | post_automation_integration.js:416 | The route's diversity step gives the diversified ranking `Diversify.Diversified`. It holds the same posts as the ranking and keeps each type's ranked order. |
| FeedRoute.ShownFacts | post_automation_integration.js:412-419 | Slicing the diversified ranking yields kept, scored posts drawn from the ranking. With no cut, every post appears. |
| FeedRoute.OfTypePrefix | post_automation_integration.js:419 | A prefix of the feed takes a prefix of each type's posts. |
| EventDates.ParseEventDate | auto_post_generator.js:132-144 | An empty string reads as today. A string with a '/' reads as day/month/year. It gives a calendar date exactly when there are at least three parts and the first three read as integers. That date has the third part as year, the second minus 1 as month and the first as day. In every other case the result is an invalid date. Any string without a '/' is handed unchanged to `new Date`. |
| EventDates.PaddedSlashDateRoundTrip | auto_post_generator.js:132-144 | Writing day, month and year as numerals with any number of leading zeros, such as "05/06/2024", and reading them back gives that day and year, and the month counted from 0. |
| EventDates.LettersAreInvalid | auto_post_generator.js:136-139 | "a/b/c" has parts that are not numbers and reads as an invalid date. |
| EventDates.SlashDateRoundTrip | auto_post_generator.js:137-139 | Reading a written DD/MM/YYYY date gives back its day and year, and its month counted from 0. |
| EventDates.MonthLookup | auto_post_generator.js:155-164 | A month abbreviation gives its index. An inherited object key gives an inherited member. Anything else is undefined. |
| EventDates.MonthLookupName | auto_post_generator.js:155-158 | Each of the twelve abbreviations looks up its own month. |
| EventDates.ParseEventDateFromHoraires | auto_post_generator.js:152-175 | The result is today exactly when the string is empty, has fewer than three words, or has a day or month that cannot be read. A read date is in the current year, with that day and that month. An inherited key gives an invalid date. The result never goes to `new Date(text)`. |
| EventDates.FrenchDateRoundTrip | auto_post_generator.js:152-170 | A French short date such as "sam 15 févr." reads back as its day and month in the current year, whatever words follow it. |
| EventDates.ShortDateExample | auto_post_generator.js:153 | "sam 15 févr." is the 15th of month 1, February. |
| ProducerFocus.SpecialItems | auto_post_generator.js:633-635 | The special items are non-empty exactly when some item has a rating of 8.0 or more. |
| ProducerFocus.SpecialInSomeSection | auto_post_generator.js:629-640 | Flattening the menu finds a special dish exactly when some section holds one. |
| ProducerFocus.WeightedPick | auto_post_generator.js:667-677 | The pick is the first area whose cumulative weight reaches the draw. No area is picked exactly when no cumulative weight reaches it. |
| ProducerFocus.TotalWeight | auto_post_generator.js:667 | The total weight is the last cumulative weight. |
| ProducerFocus.WeightedDefault | auto_post_generator.js:659-677 | The weighted default is always one of the four default areas. |
| ProducerFocus.DefaultPicksByBand | auto_post_generator.js:659-677 | The loop always picks, so the fallback is never reached. A draw of `r` out of 100 picks ambiance up to 25, menu_highlights up to 60, location up to 75, and unique_selling_point above that. |
| ProducerFocus.DrawIndex | auto_post_generator.js:623 | `Math.floor(draw · n)` is a valid index for a draw in [0, 1). |
| ProducerFocus.SelectProducerFocusArea | auto_post_generator.js:615-678 | An explicit list of areas wins, and the pick is taken from it. Failing that, a special dish wins, then an event that has not ended, then the weighted default band. |
| ProducerFocus.UndatedEventIsUpcoming | auto_post_generator.js:643-656 | Without explicit areas or a special dish, an event with neither end nor start date counts as upcoming, because it reads as today. |
| ProducerFocus.SelectProducerMedia | auto_post_generator.js:686-704 | There is no media without producer photos. Otherwise there is exactly one item, drawn from the producer's photos: the first dish photo for specialty_dish, the first interior photo for ambiance, and the first photo otherwise. |

## Left out

- I/O, the database reads and their `skip`/`limit` paging are left out. The route receives the viewer lookup result and the three fetched post lists as parameters.
- The query string is left out: `page` and `limit` are natural numbers, so `parseInt` and the defaults are not modelled.
- Logging and the 500 error branch are left out.
- The clock is an input (`now`, the hour and the weekday). `new Date` parsing of stored dates is also an input: the end date is absent, unparsable, or an instant.
- The days until an event and the event's start hour are inputs on the post.
- Scoring.SocialScore: `mutual_connections` is a map holding the viewer's own entries. In the source, an author id that names an inherited `Object.prototype` member, such as `constructor`, looks up a function, and `mutualCount * 5` (line 600) is `NaN`. The model does not cover such author ids.
- FeedModel.Post.postedAt: the publication time is always a valid instant. A post with neither `posted_at` nor `time_posted`, or with one `new Date` cannot read, gets a `NaN` recency and a `NaN` relevance in the source, and the sort comparator then answers `NaN`. The model does not cover such posts.
- `getFullYear()` is the `year` parameter of the short-date reader.
- The Date normalisation of `new Date(y, m, d)` is not modelled. `Calendar` keeps the raw arguments.
- The comparison of a parsed event date with today is the `notBefore` parameter of `StillOn`.
- Scoring.LocationScore: the haversine distance and `Math.exp(-0.1·d)` are replaced by an input `proximity` on the post (the 100·e^(−0.1·d) term), because they are floating-point transcendental functions.
- Floating point is modelled with exact reals. Rounding errors of IEEE doubles, for example in the 0.3/0.25/0.2/0.15/0.1 weights, are not modelled.
- Text.Lower: lower-casing maps only ASCII capitals. Accented capitals such as 'É' are left unchanged, unlike `toLowerCase`.
- `Math.random` is not modelled. The draw is a parameter in [0, 1) of the focus-area choice.
- The `horaire` argument of `parseEventDateFromHoraires` is not modelled, because the function never reads it.
- The rest of the post generator is not part of this model: the LLM client, prompt building, scheduling, `selectEventPostStyle` and post persistence.
- The server set-up and the mobile and build files are not part of this model.
- The 400, 404 and 500 status codes are constructors of the route's `Response` rather than HTTP responses.
- Interleave.Interleave requires quotas that fit their buckets. The loop as written does not stop otherwise, which `Interleave.NeverHalts` proves for a stuck state.
- Diversify.ApplyDiversityAdjustment uses the corrected quotas (`Diversify.Quotas`). The quotas of lines 1029-1076 are `Diversify.SourceQuotas` wherever `Diversity.TargetDistributionAsWritten` is defined. When the capped sum is 0 the source's quotas are NaN (second row of "## Findings"), and `Diversify.SourceQuotas` uses the fallback of `Diversity.TargetDistribution` instead.

Behaviour of the code worth noting:

- An event post whose end date `new Date` cannot read is dropped, because the comparison with a `NaN` date is false (post_automation_integration.js:409).
- The route's response slices the first `limit` posts of every page (line 419). The page number only enters the database `skip` and `has_more`.
- The timing bonus is `30 - 3·days` (line 738), so an event tomorrow gets 27. The code comment says 30.

## Findings

| source | as written | input that shows it | evidently intended | confidence | as-written member | corrected member |
|---|---|---|---|---|---|---|
| post_automation_integration.js:1016-1026, 1085-1108 | Renormalising the capped shares can raise a type's share above its fraction of the posts. Its rounded quota then exceeds its bucket, the result can never reach `totalPosts`, and the round never ends with all quotas spent, so the `while` loop never stops. | 9 producer posts and 1 event post, viewer without engagement stats: quotas (8, 2, 0, 0) | each quota at most its bucket's size, so the loop ends with every post placed | not executed | Diversify.NinePlusOneNeverStops | Diversify.ApplyDiversityAdjustment |
| post_automation_integration.js:1021-1026 | When every capped share is 0, the renormalisation divides 0 by 0. The NaN shares give NaN counts, no quota is ever spent, and the loop never stops. | engagement stats (3, 0, 0, 0) and four posts, all of type "other" | fall back to the types' fractions of the posts | not executed | Diversity.AllOtherDividesByZero | Diversity.TargetDistribution |
