/** The `Announcement` model: the document, its virtuals, the pre-save hook that deactivates
    an expired announcement, the instance methods that count views and keep likes and
    comments, and the visibility filter and order shared by the query statics.

    A document is an object of class `Announcement`; the statics work on a snapshot of the
    collection, a sequence of `Record` values. `now` is the time in milliseconds. */
module AnnouncementModel {
  import opened Wrappers
  import opened Strings
  import opened Lists
  import opened Sorting
  import opened FormData

  type UserId = nat

  const DayMillis := 1000 * 60 * 60 * 24

  datatype Comment = Comment(
    user: Option<UserId>, name: string, email: string, content: string, createdAt: int, isApproved: bool)

  /** The fields of an announcement the modelled code reads or writes. */
  datatype Record = Record(
    id: nat,
    title: string,
    content: string,
    category: string,
    priority: string,
    targetAudience: seq<string>,
    department: seq<string>,
    publishDate: int,
    expiryDate: Option<int>,
    isActive: bool,
    isPinned: bool,
    showOnHomepage: bool,
    images: seq<Image>,
    tags: seq<string>,
    views: nat,
    likes: seq<UserId>,
    comments: seq<Comment>,
    createdBy: nat,
    modifiedBy: Option<nat>,
    updatedAt: int)

  // ---------------------------------------------------------------------------------------
  // Virtuals
  // ---------------------------------------------------------------------------------------

  /** The virtual `likeCount`. */
  function LikeCount(r: Record): nat {
    |r.likes|
  }

  /** The virtual `commentCount`: approved comments only. */
  function CommentCount(r: Record): (n: nat)
    ensures n <= |r.comments|
    ensures n == |Filter(r.comments, (c: Comment) => c.isApproved)|
  {
    Count(r.comments, (c: Comment) => c.isApproved)
  }

  /** The virtual `isExpired`. */
  predicate IsExpired(r: Record, now: int) {
    r.expiryDate.Some? && now > r.expiryDate.value
  }

  /** `Math.ceil(n / d)` for a positive divisor. */
  function CeilDiv(n: int, d: int): (q: int)
    requires d > 0
    ensures (q - 1) * d < n <= q * d
  {
    -((-n) / d)
  }

  /** The virtual `daysUntilExpiry`: none without an expiry date, else the whole days left,
      rounded up, and 0 once the expiry has arrived. */
  function DaysUntilExpiry(r: Record, now: int): (d: Option<nat>)
    ensures d.None? <==> r.expiryDate.None?
    ensures d.Some? ==> (d.value == 0 <==> r.expiryDate.value <= now)
    ensures d.Some? && d.value > 0 ==>
      (d.value - 1) * DayMillis < r.expiryDate.value - now <= d.value * DayMillis
  {
    match r.expiryDate
    case None => None
    case Some(expiry) =>
      var days := CeilDiv(expiry - now, DayMillis);
      Some(if days > 0 then days else 0)
  }

  // ---------------------------------------------------------------------------------------
  // Save hook, visibility and order
  // ---------------------------------------------------------------------------------------

  /** The pre-save hook: an announcement whose expiry has passed is deactivated. */
  function PreSave(r: Record, now: int): (s: Record)
    ensures s == r.(isActive := s.isActive)
    ensures s.isActive <==> r.isActive && !IsExpired(r, now)
  {
    if IsExpired(r, now) then r.(isActive := false) else r
  }

  /** The hook never activates, and hooking twice is hooking once. */
  lemma PreSaveNeverActivates(r: Record, now: int)
    ensures PreSave(r, now).isActive ==> r.isActive
    ensures PreSave(PreSave(r, now), now) == PreSave(r, now)
  {
  }

  /** The filter of `getActive` and its siblings: active, published, and not past its expiry. */
  predicate Visible(r: Record, now: int) {
    r.isActive && r.publishDate <= now && (r.expiryDate.None? || r.expiryDate.value >= now)
  }

  /** A visible announcement is exactly an active, published one that is not expired. */
  lemma VisibleMeansPublishedAndUnexpired(r: Record, now: int)
    ensures Visible(r, now) <==> r.isActive && r.publishDate <= now && !IsExpired(r, now)
  {
  }

  /** The listing order as written, `{ isPinned: -1, priority: -1, publishDate: -1 }`: `a` may
      precede `b`. The priority key is a string, so it is compared as a string. */
  predicate ListedNoLaterAsWritten(a: Record, b: Record) {
    || (a.isPinned && !b.isPinned)
    || (a.isPinned == b.isPinned
        && (StringLess(b.priority, a.priority)
            || (a.priority == b.priority && a.publishDate >= b.publishDate)))
  }

  /** Descending string order puts 'high' after 'low' and 'medium': of two announcements that
      differ only in priority, the 'low' one is listed first. */
  lemma HighListedLastAsWritten(r: Record)
    requires r.priority == "high"
    ensures ListedNoLaterAsWritten(r.(priority := "low"), r)
    ensures !ListedNoLaterAsWritten(r, r.(priority := "low"))
    ensures ListedNoLaterAsWritten(r.(priority := "medium"), r)
    ensures !ListedNoLaterAsWritten(r, r.(priority := "medium"))
  {
    assert StringLess("high", "low");
    assert !StringLess("low", "high");
    assert StringLess("high", "medium");
    assert !StringLess("medium", "high");
  }

  /** The urgency of a priority level; an unknown level ranks below 'low'. */
  function PriorityRank(p: string): (n: int)
    ensures p == "urgent" ==> n == 3
    ensures p == "high" ==> n == 2
    ensures p == "medium" ==> n == 1
    ensures p == "low" ==> n == 0
    ensures n >= -1 && n <= 3
  {
    if p == "urgent" then 3 else if p == "high" then 2 else if p == "medium" then 1
    else if p == "low" then 0 else -1
  }

  /** The listing key with the priority ranked by urgency. */
  function ListingKey(r: Record): Key {
    (if r.isPinned then 1 else 0, PriorityRank(r.priority), r.publishDate)
  }

  /** Pinned first, then the most urgent, then the newest. */
  lemma ListingOrder(a: Record, b: Record)
    ensures a.isPinned && !b.isPinned ==> KeyGe(ListingKey(a), ListingKey(b)) && !KeyGe(ListingKey(b), ListingKey(a))
    ensures a.isPinned == b.isPinned && a.priority == "high" && b.priority in {"low", "medium"} ==>
      !KeyGe(ListingKey(b), ListingKey(a))
    ensures a.isPinned == b.isPinned && a.priority == b.priority ==>
      (KeyGe(ListingKey(a), ListingKey(b)) <==> a.publishDate >= b.publishDate)
  {
  }

  /** The schema's priority levels. */
  predicate PriorityLevel(p: string) {
    p == "low" || p == "medium" || p == "high" || p == "urgent"
  }

  /** The place of a level in the descending string order that `priority: -1` applies:
      'urgent', 'medium', 'low', 'high'. */
  function PriorityRankAsWritten(p: string): (n: int)
    ensures p == "urgent" ==> n == 3
    ensures p == "medium" ==> n == 2
    ensures p == "low" ==> n == 1
    ensures p == "high" ==> n == 0
    ensures n >= -1 && n <= 3
  {
    if p == "urgent" then 3 else if p == "medium" then 2 else if p == "low" then 1
    else if p == "high" then 0 else -1
  }

  /** On the schema's levels the as-written rank is the string order of the levels. */
  lemma AsWrittenRankIsStringOrder(p: string, q: string)
    requires PriorityLevel(p) && PriorityLevel(q)
    ensures PriorityRankAsWritten(p) > PriorityRankAsWritten(q) <==> StringLess(q, p)
    ensures PriorityRankAsWritten(p) == PriorityRankAsWritten(q) <==> p == q
  {
    assert StringLess("high", "low") && StringLess("low", "medium") && StringLess("medium", "urgent");
    assert !StringLess("low", "high") && !StringLess("medium", "low") && !StringLess("urgent", "medium");
    assert StringLess("high", "medium") && StringLess("high", "urgent") && StringLess("low", "urgent");
    assert !StringLess("medium", "high") && !StringLess("urgent", "high") && !StringLess("urgent", "low");
    assert !StringLess(p, p);
  }

  /** The listing key `{ isPinned: -1, priority: -1, publishDate: -1 }` as the source has it. */
  function ListingKeyAsWritten(r: Record): Key {
    (if r.isPinned then 1 else 0, PriorityRankAsWritten(r.priority), r.publishDate)
  }

  /** For announcements with schema levels the as-written key orders them as the string sort
      does. */
  lemma ListingKeyAsWrittenIsStringSort(a: Record, b: Record)
    requires PriorityLevel(a.priority) && PriorityLevel(b.priority)
    ensures KeyGe(ListingKeyAsWritten(a), ListingKeyAsWritten(b)) <==> ListedNoLaterAsWritten(a, b)
  {
    AsWrittenRankIsStringOrder(a.priority, b.priority);
  }

  /** A static query: the records satisfying `matches`, sorted on `key`, the `limit` highest
      (0 for no limit). */
  function Query(records: seq<Record>, matches: Record -> bool, limit: nat, key: Record -> Key)
    : (r: seq<Record>)
    ensures forall i :: 0 <= i < |r| ==> matches(r[i]) && r[i] in records
    ensures IsListing(r, Filter(records, matches), limit, key)
    ensures (limit == 0 || |Filter(records, matches)| <= limit) ==>
      multiset(r) == multiset(Filter(records, matches))
  {
    var matching := Filter(records, matches);
    var r := TopK(matching, key, limit);
    forall i | 0 <= i < |r| ensures matches(r[i]) && r[i] in records {
      assert r[i] in multiset(matching);
      var k :| 0 <= k < |matching| && matching[k] == r[i];
      InFilter(records, matches, k);
    }
    r
  }

  /** The filters of the statics. */
  function VisibleAt(now: int): Record -> bool { (a: Record) => Visible(a, now) }
  function PinnedAt(now: int): Record -> bool { (a: Record) => a.isPinned && Visible(a, now) }
  function InCategoryAt(category: string, now: int): Record -> bool {
    (a: Record) => a.category == category && Visible(a, now)
  }
  function ForAudienceAt(audience: string, now: int): Record -> bool {
    (a: Record) => ForAudience(a, audience) && Visible(a, now)
  }
  function OnHomepageAt(now: int): Record -> bool { (a: Record) => a.showOnHomepage && Visible(a, now) }

  /** `targetAudience: { $in: ['all', audience] }` on an array field. */
  predicate ForAudience(r: Record, audience: string) {
    "all" in r.targetAudience || audience in r.targetAudience
  }

  /** `getActive(limit = 10)`: the `limit` visible announcements that come first in the
      as-written order. */
  function GetActive(records: seq<Record>, now: int, limit: nat): (r: seq<Record>)
    ensures forall i :: 0 <= i < |r| ==> Visible(r[i], now) && r[i] in records
    ensures IsListing(r, Filter(records, VisibleAt(now)), limit, ListingKeyAsWritten)
  {
    Query(records, VisibleAt(now), limit, ListingKeyAsWritten)
  }

  /** `getPinned()`: every visible pinned announcement, in the as-written order; its sort has
      no `isPinned` key, which every match shares. */
  function GetPinned(records: seq<Record>, now: int): (r: seq<Record>)
    ensures forall i :: 0 <= i < |r| ==> r[i].isPinned && Visible(r[i], now) && r[i] in records
    ensures IsListing(r, Filter(records, PinnedAt(now)), 0, ListingKeyAsWritten)
    ensures multiset(r) == multiset(Filter(records, PinnedAt(now)))
  {
    Query(records, PinnedAt(now), 0, ListingKeyAsWritten)
  }

  /** `getByCategory(category)`: every visible announcement of the category, in the
      as-written order. */
  function GetByCategory(records: seq<Record>, category: string, now: int): (r: seq<Record>)
    ensures forall i :: 0 <= i < |r| ==> r[i].category == category && Visible(r[i], now) && r[i] in records
    ensures IsListing(r, Filter(records, InCategoryAt(category, now)), 0, ListingKeyAsWritten)
    ensures multiset(r) == multiset(Filter(records, InCategoryAt(category, now)))
  {
    Query(records, InCategoryAt(category, now), 0, ListingKeyAsWritten)
  }

  /** `getForAudience(audience)`: every visible announcement for the audience or for all, in
      the as-written order. */
  function GetForAudience(records: seq<Record>, audience: string, now: int): (r: seq<Record>)
    ensures forall i :: 0 <= i < |r| ==> ForAudience(r[i], audience) && Visible(r[i], now) && r[i] in records
    ensures IsListing(r, Filter(records, ForAudienceAt(audience, now)), 0, ListingKeyAsWritten)
    ensures multiset(r) == multiset(Filter(records, ForAudienceAt(audience, now)))
  {
    Query(records, ForAudienceAt(audience, now), 0, ListingKeyAsWritten)
  }

  /** `getHomepage()`: the five visible homepage announcements that come first in the
      as-written order. */
  function GetHomepage(records: seq<Record>, now: int): (r: seq<Record>)
    ensures forall i :: 0 <= i < |r| ==> r[i].showOnHomepage && Visible(r[i], now) && r[i] in records
    ensures IsListing(r, Filter(records, OnHomepageAt(now)), 5, ListingKeyAsWritten)
  {
    Query(records, OnHomepageAt(now), 5, ListingKeyAsWritten)
  }

  /** The same statics ordered as intended, by `ListingKey`. */
  function GetActiveCorrected(records: seq<Record>, now: int, limit: nat): (r: seq<Record>)
    ensures forall i :: 0 <= i < |r| ==> Visible(r[i], now) && r[i] in records
    ensures IsListing(r, Filter(records, VisibleAt(now)), limit, ListingKey)
  {
    Query(records, VisibleAt(now), limit, ListingKey)
  }

  /** The as-written and the intended order choose differently: of two visible, unpinned
      announcements published together, `getActive(1)` returns the 'low' one where the
      intended order returns the 'high' one. */
  lemma GetActiveListsLowBeforeHigh(high: Record, now: int)
    requires Visible(high, now) && !high.isPinned && high.priority == "high"
    ensures GetActive([high, high.(priority := "low")], now, 1) == [high.(priority := "low")]
    ensures GetActiveCorrected([high, high.(priority := "low")], now, 1) == [high]
  {
    var low := high.(priority := "low");
    var records := [high, low];
    BothVisible(high, low, now);
    assert ListingKeyAsWritten(high) == (0, 0, high.publishDate);
    assert ListingKeyAsWritten(low) == (0, 1, high.publishDate);
    assert ListingKey(high) == (0, 2, high.publishDate);
    assert ListingKey(low) == (0, 0, high.publishDate);
    ListingOnTwo(GetActive(records, now, 1), high, low, ListingKeyAsWritten);
    ListingOnTwo(GetActiveCorrected(records, now, 1), high, low, ListingKey);
  }

  lemma BothVisible(a: Record, b: Record, now: int)
    requires Visible(a, now) && Visible(b, now)
    ensures Filter([a, b], VisibleAt(now)) == [a, b]
  {
    FilterAllPass([a, b], VisibleAt(now));
  }

  /** A one-element listing of two records of distinct keys holds the higher one. */
  lemma ListingOnTwo(r: seq<Record>, a: Record, b: Record, key: Record -> Key)
    requires a != b && IsListing(r, [a, b], 1, key)
    ensures KeyGe(key(a), key(b)) && !KeyGe(key(b), key(a)) ==> r == [a]
    ensures KeyGe(key(b), key(a)) && !KeyGe(key(a), key(b)) ==> r == [b]
  {
    assert |r| == 1;
    assert multiset([a, b]) == multiset{a, b};
    assert r[0] in multiset(r);
    if r[0] == a {
      assert b in multiset([a, b]) - multiset(r);
    } else {
      assert r[0] == b;
      assert a in multiset([a, b]) - multiset(r);
    }
  }

  /** What the statics return: visible announcements only, pinned ones first, the homepage at
      most five, and an announcement for everyone in every audience's list. */
  lemma StaticsShowOnlyVisible(records: seq<Record>, now: int, audience: string)
    ensures forall r :: r in GetActive(records, now, 10) ==> Visible(r, now) && r in records
    ensures forall r :: r in GetPinned(records, now) ==> r.isPinned && Visible(r, now)
    ensures forall r :: r in GetHomepage(records, now) ==> r.showOnHomepage && Visible(r, now)
    ensures |GetHomepage(records, now)| <= 5
    ensures forall r :: r in records && Visible(r, now) && "all" in r.targetAudience ==>
      r in GetForAudience(records, audience, now)
  {
    var m := ForAudienceAt(audience, now);
    forall r | r in records && Visible(r, now) && "all" in r.targetAudience
      ensures r in GetForAudience(records, audience, now)
    {
      FilterMultiplicity(records, m, r);
      assert r in multiset(Filter(records, m));
      assert r in multiset(GetForAudience(records, audience, now));
    }
  }

  // ---------------------------------------------------------------------------------------
  // The document
  // ---------------------------------------------------------------------------------------

  class Announcement {
    var id: nat
    var title: string
    var content: string
    var category: string
    var priority: string
    var targetAudience: seq<string>
    var department: seq<string>
    var publishDate: int
    var expiryDate: Option<int>
    var isActive: bool
    var isPinned: bool
    var showOnHomepage: bool
    var images: seq<Image>
    var tags: seq<string>
    var views: nat
    var likes: seq<UserId>
    var comments: seq<Comment>
    var createdBy: nat
    var modifiedBy: Option<nat>
    var updatedAt: int

    /** The document's fields as a value. */
    function Snapshot(): Record
      reads this
    {
      Record(id, title, content, category, priority, targetAudience, department, publishDate,
             expiryDate, isActive, isPinned, showOnHomepage, images, tags, views, likes, comments,
             createdBy, modifiedBy, updatedAt)
    }

    /** A document loaded from the collection. */
    constructor (r: Record)
      ensures Snapshot() == r
    {
      id, title, content, category, priority := r.id, r.title, r.content, r.category, r.priority;
      targetAudience, department, publishDate, expiryDate := r.targetAudience, r.department, r.publishDate, r.expiryDate;
      isActive, isPinned, showOnHomepage, images, tags := r.isActive, r.isPinned, r.showOnHomepage, r.images, r.tags;
      views, likes, comments, createdBy := r.views, r.likes, r.comments, r.createdBy;
      modifiedBy, updatedAt := r.modifiedBy, r.updatedAt;
    }

    /** `save()`: the pre-save hook runs on the document. */
    method Save(now: int)
      modifies this
      ensures Snapshot() == PreSave(old(Snapshot()), now)
    {
      if expiryDate.Some? && now > expiryDate.value {
        isActive := false;
      }
    }

    /** `incrementViews()`: one more view, then `save()`. */
    method IncrementViews(now: int)
      modifies this
      ensures Snapshot() == PreSave(old(Snapshot()).(views := old(views) + 1), now)
      ensures views == old(views) + 1
    {
      views := views + 1;
      Save(now);
    }

    /** `addLike(userId)`: pushes the id unless it is already there, then `save()`. */
    method AddLike(user: UserId, now: int)
      modifies this
      ensures Snapshot() == PreSave(old(Snapshot()).(likes := AppendIfAbsent(old(likes), user)), now)
      ensures user in likes
      ensures NoDuplicates(old(likes)) ==> NoDuplicates(likes)
    {
      if user !in likes {
        likes := likes + [user];
      }
      Save(now);
    }

    /** `removeLike(userId)`: keeps every other id, in order, then `save()`. */
    method RemoveLike(user: UserId, now: int)
      modifies this
      ensures Snapshot() == PreSave(old(Snapshot()).(likes := Without(old(likes), user)), now)
      ensures user !in likes
    {
      likes := Without(likes, user);
      Save(now);
    }

    /** `addComment(comment)`: appends the comment, then `save()`. */
    method AddComment(comment: Comment, now: int)
      modifies this
      ensures Snapshot() == PreSave(old(Snapshot()).(comments := old(comments) + [comment]), now)
    {
      comments := comments + [comment];
      Save(now);
    }
  }

  /** Liking twice is liking once, and a like list stays free of duplicates. */
  lemma AddLikeIdempotent(likes: seq<UserId>, user: UserId)
    ensures AppendIfAbsent(AppendIfAbsent(likes, user), user) == AppendIfAbsent(likes, user)
    ensures NoDuplicates(likes) ==> NoDuplicates(AppendIfAbsent(likes, user))
    ensures |AppendIfAbsent(likes, user)| == |likes| + (if user in likes then 0 else 1)
  {
  }

  /** `removeLike` drops every occurrence of the id and keeps the other ids in their order. */
  lemma RemoveLikeKeepsOthers(likes: seq<UserId>, user: UserId)
    ensures user !in Without(likes, user)
    ensures IsSubsequence(Without(likes, user), likes)
    ensures forall u :: u != user ==> multiset(Without(likes, user))[u] == multiset(likes)[u]
  {
    RemovedKeepsOthersInOrder(likes, user);
  }

  /** A comment counts towards `commentCount` exactly when it is approved. */
  lemma {:induction false} CommentCountOfAppend(comments: seq<Comment>, c: Comment)
    ensures Count(comments + [c], (x: Comment) => x.isApproved)
      == Count(comments, (x: Comment) => x.isApproved) + (if c.isApproved then 1 else 0)
    decreases |comments|
  {
    if |comments| > 0 {
      assert (comments + [c])[1..] == comments[1..] + [c];
      CommentCountOfAppend(comments[1..], c);
    }
  }
}
