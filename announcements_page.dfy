/** The public announcements page: the cards it adds for the announcements published from the
    dashboard, the "time ago" label and icon of a card, and the "load more" button that reveals
    the cards a few at a time.

    The page's grid is a sequence of cards; the cards written in the page itself are `Static`.
    A card's display flag (`style.display` not 'none') is an element of an array. `now` is the
    time in milliseconds. */
module AnnouncementsPage {
  import opened Wrappers
  import opened Strings
  import opened Lists
  import opened AdminDashboard

  // ---------------------------------------------------------------------------------------
  // getTimeAgo
  // ---------------------------------------------------------------------------------------

  const MinuteMillis := 60000
  const HourMillis := 3600000
  const DayMillis := 86400000

  /** The unit `getTimeAgo` reports. */
  datatype Elapsed = Days(days: nat) | Hours(hours: nat) | Minutes(minutes: nat) | JustNow

  /** The whole days, hours or minutes in `diff` (floored, as `Math.floor` does), the largest
      unit with a positive count winning; a time in the future reads as just now. */
  function ElapsedOf(diff: int): (e: Elapsed)
    ensures e.Days? <==> diff >= DayMillis
    ensures e.Days? ==> e.days * DayMillis <= diff < (e.days + 1) * DayMillis
    ensures e.Hours? <==> HourMillis <= diff < DayMillis
    ensures e.Hours? ==> 1 <= e.hours < 24 && e.hours * HourMillis <= diff < (e.hours + 1) * HourMillis
    ensures e.Minutes? <==> MinuteMillis <= diff < HourMillis
    ensures e.Minutes? ==> 1 <= e.minutes < 60 && e.minutes * MinuteMillis <= diff < (e.minutes + 1) * MinuteMillis
    ensures e.JustNow? <==> diff < MinuteMillis
  {
    var minutes, hours, days := diff / MinuteMillis, diff / HourMillis, diff / DayMillis;
    if days > 0 then Days(days)
    else if hours > 0 then Hours(hours)
    else if minutes > 0 then Minutes(minutes)
    else JustNow
  }

  /** "`n` unit" with the plural 's' only for more than one. */
  function Counted(n: nat, unit: string): string {
    NatToString(n) + " " + unit + (if n > 1 then "s" else "") + " ago"
  }

  function Phrase(e: Elapsed): string {
    match e
    case Days(n) => Counted(n, "day")
    case Hours(n) => Counted(n, "hour")
    case Minutes(n) => Counted(n, "minute")
    case JustNow => "Just now"
  }

  /** `getTimeAgo(timestamp)`. */
  function TimeAgo(timestamp: int, now: int): string {
    Phrase(ElapsedOf(now - timestamp))
  }

  /** The label starts with the count it reports, read back as that number, and uses the
      plural exactly for counts above one. */
  lemma CountedLabel(n: nat, unit: string)
    ensures var text := Counted(n, unit);
      var digits := NatToString(n);
      text[..|digits|] == digits && ParseDigits(text[..|digits|]) == n
      && text[|digits|..] == " " + unit + (if n > 1 then "s" else "") + " ago"
  {
    var digits := NatToString(n);
    var rest := " " + unit + (if n > 1 then "s" else "") + " ago";
    assert Counted(n, unit) == digits + rest;
    assert (digits + rest)[..|digits|] == digits;
    assert (digits + rest)[|digits|..] == rest;
    NatToStringRoundTrip(n);
  }

  /** Labels at the unit boundaries: a day ago, an hour and a half ago, and a timestamp ahead
      of the clock. */
  lemma TimeAgoAtBoundaries(now: int)
    ensures TimeAgo(now - DayMillis, now) == Counted(1, "day")
    ensures TimeAgo(now - 3 * HourMillis / 2, now) == Counted(1, "hour")
    ensures TimeAgo(now - 59999, now) == "Just now"
    ensures TimeAgo(now + DayMillis, now) == "Just now"
  {
  }

  // ---------------------------------------------------------------------------------------
  // getCategoryIcon
  // ---------------------------------------------------------------------------------------

  const Icons: map<string, string> := map[
    "academic" := "fas fa-graduation-cap", "events" := "fas fa-calendar-alt",
    "admissions" := "fas fa-user-plus", "results" := "fas fa-file-alt",
    "urgent" := "fas fa-exclamation-triangle", "high" := "fas fa-bullhorn",
    "medium" := "fas fa-info-circle", "low" := "fas fa-info"]

  const DefaultIcon := "fas fa-info-circle"

  /** `getCategoryIcon(category)`: the icon of a known category, the information icon
      otherwise. */
  function CategoryIcon(category: string): (icon: string)
    ensures category in Icons ==> icon == Icons[category]
    ensures category !in Icons ==> icon == DefaultIcon
  {
    if category in Icons && Icons[category] != "" then Icons[category] else DefaultIcon
  }

  /** Every priority the publishing form offers has an icon of its own; a card without a
      priority is filed under 'general' and gets the information icon. */
  lemma PublishedPrioritiesHaveIcons(priority: string)
    requires priority in ["low", "medium", "high", "urgent"]
    ensures priority in Icons && CategoryIcon(priority) == Icons[priority]
    ensures CategoryIcon("general") == DefaultIcon
  {
  }

  // ---------------------------------------------------------------------------------------
  // loadDynamicAnnouncements
  // ---------------------------------------------------------------------------------------

  /** A card of the grid: one written in the page, or one made from a published announcement,
      with the category it is filed under and its icon. */
  datatype Card = Static(position: nat) | Dynamic(announcement: Publication, category: string, icon: string)

  predicate IsPublished(p: Publication) {
    p.status == "published"
  }

  /** `createAnnouncementCard(announcement)`: the card is filed under the priority, or under
      'general' without one. */
  function CardFor(p: Publication): (c: Card)
    ensures c.Dynamic? && c.announcement == p
    ensures c.category == (if p.priority == "" then "general" else p.priority)
    ensures c.icon == CategoryIcon(c.category)
  {
    var category := if p.priority == "" then "general" else p.priority;
    Dynamic(p, category, CategoryIcon(category))
  }

  /** The cards the loop has put in front of the grid after reading `s`: each published one
      goes in first, so the last read is at the front. */
  function FrontCards(s: seq<Publication>): (cards: seq<Card>)
    ensures |cards| <= |s|
    ensures forall i :: 0 <= i < |cards| ==>
      cards[i].Dynamic? && cards[i].announcement in s && IsPublished(cards[i].announcement)
    decreases |s|
  {
    if |s| == 0 then []
    else
      var rest := FrontCards(s[..|s| - 1]);
      assert forall i :: 0 <= i < |rest| ==> rest[i].announcement in s by {
        forall i | 0 <= i < |rest| ensures rest[i].announcement in s {
          var p := rest[i].announcement;
          var k :| 0 <= k < |s| - 1 && s[..|s| - 1][k] == p;
          assert s[k] == p;
        }
      }
      (if IsPublished(s[|s| - 1]) then [CardFor(s[|s| - 1])] else []) + rest
  }

  /** Exactly the published announcements get a card. */
  lemma {:induction false} FrontCardsCount(s: seq<Publication>)
    ensures |FrontCards(s)| == Count(s, IsPublished)
    decreases |s|
  {
    if |s| > 0 {
      FrontCardsCount(s[..|s| - 1]);
      CountSplitLast(s);
    }
  }

  lemma {:induction false} CountSplitLast(s: seq<Publication>)
    requires |s| > 0
    ensures Count(s, IsPublished) == Count(s[..|s| - 1], IsPublished) + (if IsPublished(s[|s| - 1]) then 1 else 0)
    decreases |s|
  {
    if |s| > 1 {
      CountSplitLast(s[1..]);
      assert s[1..][..|s[1..]| - 1] == s[..|s| - 1][1..];
    }
  }

  /** For a list built by publishing, whose ids count up, the cards come newest first: their
      ids strictly decrease down the grid. */
  lemma {:induction false} NewestFirst(s: seq<Publication>)
    requires IdsCountUp(s)
    ensures forall a, b :: 0 <= a < b < |FrontCards(s)| ==>
      FrontCards(s)[a].announcement.id > FrontCards(s)[b].announcement.id
    decreases |s|
  {
    if |s| > 0 {
      var init := s[..|s| - 1];
      assert IdsCountUp(init) by {
        forall i | 0 <= i < |init| ensures init[i].id == i + 1 {
          assert init[i] == s[i];
        }
      }
      NewestFirst(init);
      var rest := FrontCards(init);
      forall i | 0 <= i < |rest| ensures rest[i].announcement.id < s[|s| - 1].id {
        var k :| 0 <= k < |init| && init[k] == rest[i].announcement;
      }
    }
  }

  /** `loadDynamicAnnouncements()`: each published announcement of the stored list is put
      before the grid's first card, in the order of the list. */
  method LoadDynamicAnnouncements(stored: seq<Publication>, grid: seq<Card>) returns (result: seq<Card>)
    ensures result == FrontCards(stored) + grid
  {
    result := grid;
    if |stored| > 0 {
      var i := 0;
      while i < |stored|
        invariant 0 <= i <= |stored|
        invariant result == FrontCards(stored[..i]) + grid
      {
        var announcement := stored[i];
        assert stored[..i + 1][..i] == stored[..i];
        if announcement.status == "published" {
          result := [CardFor(announcement)] + result;
        }
        i := i + 1;
      }
      assert stored[..|stored|] == stored;
    }
  }

  // ---------------------------------------------------------------------------------------
  // Load more
  // ---------------------------------------------------------------------------------------

  const InitiallyShown := 6
  const Step := 3

  /** `currentlyShowing` after `clicks` clicks. */
  function ShowingAfter(clicks: nat): nat {
    InitiallyShown + Step * clicks
  }

  /** The clicks after which the button is hidden: the check runs only on a click, so even a
      page with six cards or fewer needs one. */
  function ClicksToHide(total: nat): (k: nat)
    ensures k >= 1 && ShowingAfter(k) >= total
    ensures k > 1 ==> ShowingAfter(k - 1) < total
  {
    if total <= InitiallyShown + Step then 1 else (total - InitiallyShown + Step - 1) / Step
  }

  /** The page's cards and the load-more button, from `initializeLoadMore()`. */
  class LoadMore {
    /** Whether each card is displayed. */
    const shown: array<bool>
    var currentlyShowing: nat
    var buttonShown: bool

    /** The cards displayed are exactly the first `currentlyShowing`. */
    predicate Valid()
      reads this, shown
    {
      forall i :: 0 <= i < shown.Length ==> shown[i] == (i < currentlyShowing)
    }

    /** Every card starts displayed; all but the first six are hidden. */
    constructor (cards: nat)
      ensures shown.Length == cards && fresh(shown)
      ensures currentlyShowing == ShowingAfter(0) && buttonShown
      ensures Valid()
    {
      var display := new bool[cards](_ => true);
      var i := 0;
      while i < cards
        invariant 0 <= i <= cards
        invariant forall j :: 0 <= j < i ==> display[j] == (j < InitiallyShown)
        invariant forall j :: i <= j < cards ==> display[j]
      {
        if i >= InitiallyShown {
          display[i] := false;
        }
        i := i + 1;
      }
      shown := display;
      currentlyShowing := InitiallyShown;
      buttonShown := true;
    }

    /** A click on the button: the next three cards are displayed, the counter moves by
        three, and the button is hidden once the counter reaches the number of cards. */
    method Click()
      requires Valid()
      modifies this, shown
      ensures Valid()
      ensures currentlyShowing == old(currentlyShowing) + Step
      ensures buttonShown == (old(buttonShown) && currentlyShowing < shown.Length)
    {
      var from := currentlyShowing;
      var j := from;
      while j < from + Step && j < shown.Length
        modifies shown
        invariant from <= j <= from + Step
        invariant forall k :: 0 <= k < shown.Length ==> shown[k] == (k < from || (from <= k < j))
      {
        shown[j] := true;
        j := j + 1;
      }
      currentlyShowing := from + Step;
      if currentlyShowing >= shown.Length {
        buttonShown := false;
      }
    }
  }
}
