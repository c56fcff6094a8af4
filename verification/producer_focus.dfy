/** How the auto-post generator (auto_post_generator.js) picks what a producer
    post is about and which photo it shows: `selectProducerFocusArea`, with the
    `Math.random()` draw passed in, and `selectProducerMedia`. */
module ProducerFocus {
  import opened Common
  import opened EventDates

  /** An entry of a menu section; `note` is None when the item has none. */
  datatype MenuItem = MenuItem(note: Option<real>)

  /** A section of `Items Indépendants`; `items` is [] when the section has none. */
  datatype Section = Section(items: seq<MenuItem>)

  /** An entry of `upcoming_events`; a missing date is "". */
  datatype VenueEvent = VenueEvent(dateFin: string, dateDebut: string)

  /** The fields of a producer the two selections read. An `Option` is None when
      the field is missing or not an array. */
  datatype Producer = Producer(
    focusAreas: Option<seq<string>>,   // auto_post_settings.focus_areas
    menu: Option<seq<Section>>,        // Items Indépendants
    upcomingEvents: seq<VenueEvent>,   // upcoming_events
    photos: Option<seq<string>>,
    dishPhotos: seq<string>,           // dish_photos
    interiorPhotos: seq<string>)       // interior_photos

  // ---------------------------------------------------------------------------
  // The branches of the priority cascade

  /** The producer names its own focus areas. */
  predicate HasExplicitAreas(p: Producer) {
    p.focusAreas.Some? && |p.focusAreas.value| > 0
  }

  /** `item.note && item.note >= 8.0`. */
  predicate IsSpecial(item: MenuItem) {
    item.note.Some? && item.note.value >= 8.0
  }

  /** `sections.flatMap(section => section.items || [])`. */
  function Flatten(sections: seq<Section>): (items: seq<MenuItem>)
    ensures |sections| == 0 ==> items == []
  {
    if |sections| == 0 then [] else sections[0].items + Flatten(sections[1..])
  }

  /** `items.filter(IsSpecial)`. */
  function SpecialItems(items: seq<MenuItem>): (r: seq<MenuItem>)
    ensures forall i :: 0 <= i < |r| ==> IsSpecial(r[i])
    ensures |r| > 0 <==> AnySpecial(items)
  {
    if |items| == 0 then []
    else
      var rest := SpecialItems(items[1..]);
      assert forall i :: 1 <= i < |items| ==> items[i] == items[1..][i - 1];
      if IsSpecial(items[0]) then [items[0]] + rest else rest
  }

  /** Some section of the menu holds an item rated 8 or more. */
  predicate HasSpecialDish(p: Producer) {
    p.menu.Some? && |p.menu.value| > 0 && |SpecialItems(Flatten(p.menu.value))| > 0
  }

  /** Some item of the list is special. */
  predicate AnySpecial(items: seq<MenuItem>) {
    exists k :: 0 <= k < |items| && IsSpecial(items[k])
  }

  /** Some section of the list holds a special item. */
  predicate SomeSectionSpecial(sections: seq<Section>) {
    exists i :: 0 <= i < |sections| && AnySpecial(sections[i].items)
  }

  /** The flattened menu has a special item exactly when some section does. */
  lemma {:induction false} SpecialInSomeSection(sections: seq<Section>)
    ensures |SpecialItems(Flatten(sections))| > 0 <==> SomeSectionSpecial(sections)
  {
    if |sections| > 0 {
      SpecialInSomeSection(sections[1..]);
      var head := sections[0].items;
      var rest := Flatten(sections[1..]);
      assert Flatten(sections) == head + rest;
      AnySpecialAppend(head, rest);
      SomeSectionCons(sections);
    }
  }

  /** A concatenation has a special item exactly when one of its parts does. */
  lemma AnySpecialAppend(a: seq<MenuItem>, b: seq<MenuItem>)
    ensures AnySpecial(a + b) <==> AnySpecial(a) || AnySpecial(b)
  {
    if AnySpecial(a + b) {
      var k :| 0 <= k < |a + b| && IsSpecial((a + b)[k]);
      if k >= |a| {
        assert b[k - |a|] == (a + b)[k];
      }
    }
    if AnySpecial(a) {
      var k :| 0 <= k < |a| && IsSpecial(a[k]);
      assert (a + b)[k] == a[k];
    }
    if AnySpecial(b) {
      var k :| 0 <= k < |b| && IsSpecial(b[k]);
      assert (a + b)[|a| + k] == b[k];
    }
  }

  /** Some section is special exactly when the first one or a later one is. */
  lemma SomeSectionCons(sections: seq<Section>)
    requires |sections| > 0
    ensures SomeSectionSpecial(sections)
            <==> AnySpecial(sections[0].items) || SomeSectionSpecial(sections[1..])
  {
    if SomeSectionSpecial(sections) {
      var i :| 0 <= i < |sections| && AnySpecial(sections[i].items);
      if i > 0 {
        assert sections[1..][i - 1] == sections[i];
      }
    }
    if SomeSectionSpecial(sections[1..]) {
      var i :| 0 <= i < |sections[1..]| && AnySpecial(sections[1..][i].items);
      assert sections[i + 1] == sections[1..][i];
    }
  }

  /** The filter callback on an upcoming event: its end date (`date_fin`, else
      `date_debut`) read by `parseEventDate` is not before today. A missing date
      reads as a later clock reading and passes; an invalid one compares false;
      `notBefore` decides the others, since comparing a calendar date with the
      clock is not part of this model. */
  predicate StillOn(e: VenueEvent, notBefore: ParsedDate -> bool) {
    var end := ParseEventDate(if e.dateFin != "" then e.dateFin else e.dateDebut);
    match end
    case Now => true
    case InvalidDate => false
    case _ => notBefore(end)
  }

  /** Some upcoming event has not ended. */
  predicate HasUpcomingEvent(p: Producer, notBefore: ParsedDate -> bool) {
    exists i :: 0 <= i < |p.upcomingEvents| && StillOn(p.upcomingEvents[i], notBefore)
  }

  // ---------------------------------------------------------------------------
  // The weighted default

  /** `defaultFocuses`: the four areas with their weights. */
  const DefaultFocuses: seq<(string, int)> :=
    [("ambiance", 25), ("menu_highlights", 35), ("location", 15), ("unique_selling_point", 25)]

  /** The sum of the first `k` weights. */
  function Cumulative(fs: seq<(string, int)>, k: nat): int
    requires k <= |fs|
  {
    if k == 0 then 0 else fs[0].1 + Cumulative(fs[1..], k - 1)
  }

  /** Area `i` is the first whose cumulative weight reaches `random`. */
  predicate PicksAt(fs: seq<(string, int)>, random: real, i: int) {
    0 <= i < |fs| && random <= Cumulative(fs, i + 1) as real
    && forall j :: 1 <= j <= i ==> random > Cumulative(fs, j) as real
  }

  /** No cumulative weight reaches `random`. */
  predicate NoneReached(fs: seq<(string, int)>, random: real) {
    forall k :: 1 <= k <= |fs| ==> random > Cumulative(fs, k) as real
  }

  /** The `for ... of` loop: `random` loses each weight in turn, and the first
      area that brings it to 0 or below is the pick; None when the loop ends.
      The pick is the first area whose cumulative weight reaches `random`, and
      there is none only when no cumulative weight reaches `random`. */
  function WeightedPick(fs: seq<(string, int)>, random: real): (r: Option<string>)
    ensures r.None? <==> NoneReached(fs, random)
    ensures r.Some? ==> exists i :: PicksAt(fs, random, i) && fs[i].0 == r.value
  {
    if |fs| == 0 then None
    else
      var left := random - fs[0].1 as real;
      if left <= 0.0 then
        assert Cumulative(fs, 1) == fs[0].1;
        assert PicksAt(fs, random, 0);
        Some(fs[0].0)
      else
        var pick := WeightedPick(fs[1..], left);
        PickShift(fs, random, left, pick);
        pick
  }

  /** The step of `WeightedPick` past the first area: what holds for the rest
      with `random` less the first weight holds for the whole list. */
  lemma PickShift(fs: seq<(string, int)>, random: real, left: real, r: Option<string>)
    requires |fs| > 0 && left == random - fs[0].1 as real && left > 0.0
    requires r.None? <==> NoneReached(fs[1..], left)
    requires r.Some? ==> exists i :: PicksAt(fs[1..], left, i) && fs[1..][i].0 == r.value
    ensures r.None? <==> NoneReached(fs, random)
    ensures r.Some? ==> exists i :: PicksAt(fs, random, i) && fs[i].0 == r.value
  {
    var rest := fs[1..];
    assert Cumulative(fs, 1) == fs[0].1;
    forall k | 2 <= k <= |fs| ensures Cumulative(fs, k) == fs[0].1 + Cumulative(rest, k - 1) {
    }
    if r.Some? {
      var i :| PicksAt(rest, left, i) && rest[i].0 == r.value;
      assert fs[i + 1].0 == r.value;
      assert Cumulative(fs, i + 2) == fs[0].1 + Cumulative(rest, i + 1);
      forall j | 1 <= j <= i + 1 ensures random > Cumulative(fs, j) as real {
        assert Cumulative(fs, j) == fs[0].1 + Cumulative(rest, j - 1);
      }
      assert PicksAt(fs, random, i + 1);
      assert random <= Cumulative(fs, i + 2) as real;
    } else {
      forall k | 1 <= k <= |fs| ensures random > Cumulative(fs, k) as real {
        if k > 1 {
          assert left > Cumulative(rest, k - 1) as real;
        }
      }
    }
  }

  /** `defaultFocuses.reduce((sum, focus) => sum + focus.weight, 0)`. */
  function TotalWeight(fs: seq<(string, int)>): (w: int)
    ensures w == Cumulative(fs, |fs|)
  {
    if |fs| == 0 then 0 else fs[0].1 + TotalWeight(fs[1..])
  }

  /** The four default areas. */
  const DefaultAreas: seq<string> := ["ambiance", "menu_highlights", "location", "unique_selling_point"]

  /** The weighted default for a draw in [0, 1): `Math.random() * totalWeight`
      picked by the loop, with 'menu_highlights' when the loop ends. */
  function WeightedDefault(draw: real): (area: string)
    requires 0.0 <= draw < 1.0
    ensures area in DefaultAreas
  {
    var random := draw * TotalWeight(DefaultFocuses) as real;
    match WeightedPick(DefaultFocuses, random)
    case Some(a) =>
      assert a in DefaultAreas by {
        var i :| 0 <= i < |DefaultFocuses| && DefaultFocuses[i].0 == a;
      }
      a
    case None => "menu_highlights"
  }

  /** The default areas by the band of `random = 100 * draw` they cover: up to
      25 ambiance, up to 60 the menu, up to 75 the location, the rest the
      selling point. */
  function Band(random: real): string {
    if random <= 25.0 then "ambiance"
    else if random <= 60.0 then "menu_highlights"
    else if random <= 75.0 then "location"
    else "unique_selling_point"
  }

  /** The loop always picks an area for a draw below 1, so the final fallback
      is never reached, and the area it picks is the one of the draw's band. */
  lemma DefaultPicksByBand(draw: real)
    requires 0.0 <= draw < 1.0
    ensures WeightedPick(DefaultFocuses, draw * 100.0).Some?
    ensures WeightedDefault(draw) == Band(draw * 100.0)
  {
    var random := draw * 100.0;
    DefaultCumulative();
    assert TotalWeight(DefaultFocuses) == 100;
    assert draw * TotalWeight(DefaultFocuses) as real == random;
    assert !NoneReached(DefaultFocuses, random) by {
      assert random <= Cumulative(DefaultFocuses, 4) as real;
    }
    var r := WeightedPick(DefaultFocuses, random);
    var i :| PicksAt(DefaultFocuses, random, i) && DefaultFocuses[i].0 == r.value;
    BandOfIndex(random, i);
  }

  /** The area picked at index `i` is the one of the band `random` falls in. */
  lemma BandOfIndex(random: real, i: int)
    requires PicksAt(DefaultFocuses, random, i)
    ensures DefaultFocuses[i].0 == Band(random)
  {
    DefaultCumulative();
    if i >= 1 {
      assert random > Cumulative(DefaultFocuses, 1) as real;
    }
    if i >= 2 {
      assert random > Cumulative(DefaultFocuses, 2) as real;
    }
    if i >= 3 {
      assert random > Cumulative(DefaultFocuses, 3) as real;
    }
  }

  /** The running sums of the default weights: 25, 60, 75, 100. */
  lemma DefaultCumulative()
    ensures Cumulative(DefaultFocuses, 1) == 25
    ensures Cumulative(DefaultFocuses, 2) == 60
    ensures Cumulative(DefaultFocuses, 3) == 75
    ensures Cumulative(DefaultFocuses, 4) == 100
  {
    var fs := DefaultFocuses;
    assert fs[1..][1..][1..][1..] == [];
  }

  // ---------------------------------------------------------------------------
  // selectProducerFocusArea

  /** The explicit area a draw in [0, 1) selects: `Math.floor(draw * n)` is an
      index of the list. */
  function DrawIndex(draw: real, n: nat): (i: nat)
    requires 0.0 <= draw < 1.0 && n > 0
    ensures i < n
  {
    var x := draw * n as real;
    assert x < n as real;
    x.Floor
  }

  /** `selectProducerFocusArea(producer)` with `Math.random()` passed in as
      `draw`. The branches are tried in order: an explicit area, a special dish,
      an upcoming event, then the weighted default. */
  function SelectProducerFocusArea(p: Producer, draw: real, notBefore: ParsedDate -> bool): (area: string)
    requires 0.0 <= draw < 1.0
    ensures HasExplicitAreas(p) ==> area in p.focusAreas.value
    ensures !HasExplicitAreas(p) && HasSpecialDish(p) ==> area == "specialty_dish"
    ensures !HasExplicitAreas(p) && !HasSpecialDish(p) && HasUpcomingEvent(p, notBefore) ==> area == "upcoming_event"
    ensures !HasExplicitAreas(p) && !HasSpecialDish(p) && !HasUpcomingEvent(p, notBefore) ==>
              area in DefaultAreas && area == Band(draw * 100.0)
  {
    if HasExplicitAreas(p) then
      var fa := p.focusAreas.value;
      fa[DrawIndex(draw, |fa|)]
    else if HasSpecialDish(p) then "specialty_dish"
    else if |p.upcomingEvents| > 0 && HasUpcomingEvent(p, notBefore) then "upcoming_event"
    else
      DefaultPicksByBand(draw);
      WeightedDefault(draw)
  }

  /** An event without any date counts as upcoming: `parseEventDate` reads it
      as a clock reading taken after `today`. */
  lemma UndatedEventIsUpcoming(p: Producer, draw: real, notBefore: ParsedDate -> bool)
    requires 0.0 <= draw < 1.0
    requires !HasExplicitAreas(p) && !HasSpecialDish(p)
    requires VenueEvent("", "") in p.upcomingEvents
    ensures SelectProducerFocusArea(p, draw, notBefore) == "upcoming_event"
  {
    var i :| 0 <= i < |p.upcomingEvents| && p.upcomingEvents[i] == VenueEvent("", "");
    assert StillOn(p.upcomingEvents[i], notBefore);
  }

  // ---------------------------------------------------------------------------
  // selectProducerMedia

  /** `selectProducerMedia(producer, focusArea)`: nothing without producer
      photos; otherwise one photo — the first dish photo for a specialty dish,
      the first interior photo for the ambiance, else the first photo. */
  function SelectProducerMedia(p: Producer, focusArea: string): (media: seq<string>)
    ensures p.photos.None? || |p.photos.value| == 0 ==> media == []
    ensures p.photos.Some? && |p.photos.value| > 0 ==>
              |media| == 1 && media[0] in p.photos.value + p.dishPhotos + p.interiorPhotos
    ensures focusArea == "specialty_dish" && |p.dishPhotos| > 0 && media != [] ==> media == [p.dishPhotos[0]]
    ensures focusArea == "ambiance" && |p.interiorPhotos| > 0 && media != [] ==> media == [p.interiorPhotos[0]]
    ensures media != [] && media[0] !in p.dishPhotos + p.interiorPhotos ==> media == [p.photos.value[0]]
    ensures p.photos.Some? && |p.photos.value| > 0
            && !(focusArea == "specialty_dish" && |p.dishPhotos| > 0)
            && !(focusArea == "ambiance" && |p.interiorPhotos| > 0) ==>
              media == [p.photos.value[0]]
  {
    if p.photos.None? || |p.photos.value| == 0 then []
    else if focusArea == "specialty_dish" && |p.dishPhotos| > 0 then [p.dishPhotos[0]]
    else if focusArea == "ambiance" && |p.interiorPhotos| > 0 then [p.interiorPhotos[0]]
    else [p.photos.value[0]]
  }
}
