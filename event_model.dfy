/** The `Event` model: the status the pre-save hook derives from the dates, the `duration`
    virtual, the numeric field constraints, and the query statics `getUpcoming`,
    `getByCategory` and `getByDateRange`.

    A date field that is not set is `None`: the hook turns it into an invalid date, with
    which every comparison is false. `now` is the time in milliseconds. */
module EventModel {
  import opened Wrappers
  import opened Lists
  import opened Sorting
  import opened FormData

  const StatusUpcoming := "upcoming"
  const StatusOngoing := "ongoing"
  const StatusCompleted := "completed"
  const StatusCancelled := "cancelled"

  /** The `status` enum of the schema. */
  const Statuses: seq<string> := [StatusUpcoming, StatusOngoing, StatusCompleted, StatusCancelled]

  const DayMillis := 1000 * 60 * 60 * 24

  datatype Banner = Banner(url: string, publicId: string)

  /** The fields of an event the modelled code reads or writes. */
  datatype Record = Record(
    id: nat,
    category: string,
    startDate: Option<int>,
    endDate: Option<int>,
    maxParticipants: Option<int>,
    registrationFee: int,
    status: string,
    isPublic: bool,
    images: seq<Image>,
    bannerImage: Option<Banner>,
    createdBy: nat,
    updatedAt: int)

  // ---------------------------------------------------------------------------------------
  // Status and duration
  // ---------------------------------------------------------------------------------------

  /** `now < date`, `now >= date`, `now <= date` and `now > date` against a date that may be
      invalid. */
  predicate Before(now: int, date: Option<int>) { date.Some? && now < date.value }
  predicate AtOrAfter(now: int, date: Option<int>) { date.Some? && now >= date.value }
  predicate AtOrBefore(now: int, date: Option<int>) { date.Some? && now <= date.value }
  predicate After(now: int, date: Option<int>) { date.Some? && now > date.value }

  /** The status the hook gives an event that is not cancelled; `None` when no branch
      applies and the status stays. */
  function DerivedStatus(start: Option<int>, end: Option<int>, now: int): (s: Option<string>)
    ensures s == Some(StatusUpcoming) <==> Before(now, start)
    ensures s == Some(StatusOngoing) <==> !Before(now, start) && AtOrAfter(now, start) && AtOrBefore(now, end)
    ensures s == Some(StatusCompleted) <==>
      !Before(now, start) && !(AtOrAfter(now, start) && AtOrBefore(now, end)) && After(now, end)
    ensures s.None? || s.value in Statuses
  {
    if Before(now, start) then Some(StatusUpcoming)
    else if AtOrAfter(now, start) && AtOrBefore(now, end) then Some(StatusOngoing)
    else if After(now, end) then Some(StatusCompleted)
    else None
  }

  /** The pre-save hook. */
  function PreSave(e: Record, now: int): (s: Record)
    ensures s == e.(status := s.status)
    ensures e.status == StatusCancelled ==> s == e
    ensures e.status != StatusCancelled ==> s.status == DerivedStatus(e.startDate, e.endDate, now).GetOr(e.status)
  {
    if e.status == StatusCancelled then e
    else match DerivedStatus(e.startDate, e.endDate, now)
      case Some(status) => e.(status := status)
      case None => e
  }

  /** With both dates set, the three branches of the hook are exhaustive: an event that is
      not cancelled is upcoming before its start, ongoing from its start to its end, and
      completed after its end. A cancelled event stays cancelled. */
  lemma StatusFollowsDates(e: Record, now: int)
    requires e.startDate.Some? && e.endDate.Some?
    ensures e.status == StatusCancelled ==> PreSave(e, now).status == StatusCancelled
    ensures e.status != StatusCancelled ==>
      var start := e.startDate.value;
      var end := e.endDate.value;
      && (now < start ==> PreSave(e, now).status == StatusUpcoming)
      && (start <= now <= end ==> PreSave(e, now).status == StatusOngoing)
      && (now > end && now >= start ==> PreSave(e, now).status == StatusCompleted)
      && PreSave(e, now).status in [StatusUpcoming, StatusOngoing, StatusCompleted]
  {
  }

  /** Without a start date no branch applies and the stored status stays. */
  lemma MissingStartKeepsStatus(e: Record, now: int)
    requires e.startDate.None? && e.endDate.None?
    ensures PreSave(e, now) == e
  {
  }

  /** `Math.ceil(|n| / d)` for a positive divisor. */
  function CeilAbsDiv(n: int, d: int): (q: nat)
    requires d > 0
    ensures (q - 1) * d < (if n < 0 then -n else n) <= q * d
  {
    var m := if n < 0 then -n else n;
    if m == 0 then 0
    else
      var k := (m - 1) / d;
      assert k * d <= m - 1 < k * d + d;
      k + 1
  }

  /** The virtual `duration`: whole days between the dates, rounded up, in either order;
      none when a date is missing. */
  function Duration(e: Record): (d: Option<nat>)
    ensures d.None? <==> e.startDate.None? || e.endDate.None?
    ensures d.Some? ==>
      var span := if e.endDate.value >= e.startDate.value then e.endDate.value - e.startDate.value
                  else e.startDate.value - e.endDate.value;
      (d.value - 1) * DayMillis < span <= d.value * DayMillis
  {
    if e.startDate.None? || e.endDate.None? then None
    else Some(CeilAbsDiv(e.endDate.value - e.startDate.value, DayMillis))
  }

  /** Swapping the dates does not change the duration. */
  lemma DurationSymmetric(e: Record)
    ensures Duration(e) == Duration(e.(startDate := e.endDate, endDate := e.startDate))
  {
  }

  // ---------------------------------------------------------------------------------------
  // Field constraints
  // ---------------------------------------------------------------------------------------

  /** `registrationFee` when the form does not send one. */
  const DefaultRegistrationFee := 0

  /** The messages of the `min` validators of `maxParticipants` and `registrationFee`. */
  function NumberErrors(e: Record): (msgs: seq<string>)
    ensures msgs == [] <==> (e.maxParticipants.None? || e.maxParticipants.value >= 1) && e.registrationFee >= 0
    ensures |msgs| <= 2
  {
    (if e.maxParticipants.Some? && e.maxParticipants.value < 1 then ["Max participants must be at least 1"] else [])
    + (if e.registrationFee < 0 then ["Registration fee cannot be negative"] else [])
  }

  // ---------------------------------------------------------------------------------------
  // Statics
  // ---------------------------------------------------------------------------------------

  /** `.sort({ startDate: 1 })`; an event without a start date sorts first. */
  function StartAscending(e: Record): Key {
    if e.startDate.None? then (1, 0, 0) else (0, -e.startDate.value, 0)
  }

  /** `.sort({ startDate: -1 })`; an event without a start date sorts last. */
  function StartDescending(e: Record): Key {
    if e.startDate.None? then (0, 0, 0) else (1, e.startDate.value, 0)
  }

  predicate IsUpcoming(e: Record, now: int) {
    e.status == StatusUpcoming && e.isPublic && e.startDate.Some? && e.startDate.value >= now
  }

  function UpcomingAt(now: int): Record -> bool { (e: Record) => IsUpcoming(e, now) }

  /** Both events have a start date, and `a` starts no later than `b`. */
  predicate StartsNoLater(a: Record, b: Record) {
    a.startDate.Some? && b.startDate.Some? && a.startDate.value <= b.startDate.value
  }

  /** `getUpcoming(limit)`: public events marked upcoming that have not started, the soonest
      first, the first `limit` of them (all for 0); every upcoming event left out starts no
      earlier than every event returned. */
  function GetUpcoming(events: seq<Record>, now: int, limit: nat): (r: seq<Record>)
    ensures forall i :: 0 <= i < |r| ==> IsUpcoming(r[i], now) && r[i] in events
    ensures forall i, j :: 0 <= i < j < |r| ==> StartsNoLater(r[i], r[j])
    ensures IsListing(r, Filter(events, UpcomingAt(now)), limit, StartAscending)
    ensures (limit == 0 || |Filter(events, UpcomingAt(now))| <= limit) ==>
      multiset(r) == multiset(Filter(events, UpcomingAt(now)))
    ensures forall x, i :: x in multiset(Filter(events, UpcomingAt(now))) - multiset(r) && 0 <= i < |r| ==>
      StartsNoLater(r[i], x)
  {
    var r := TopK(Filter(events, UpcomingAt(now)), StartAscending, limit);
    UpcomingListing(events, now, limit, r);
    r
  }

  /** What a listing of the upcoming events, sorted by start date, says about its dates. */
  lemma UpcomingListing(events: seq<Record>, now: int, limit: nat, r: seq<Record>)
    requires IsListing(r, Filter(events, UpcomingAt(now)), limit, StartAscending)
    ensures forall i :: 0 <= i < |r| ==> IsUpcoming(r[i], now) && r[i] in events
    ensures forall i, j :: 0 <= i < j < |r| ==> StartsNoLater(r[i], r[j])
    ensures forall x, i :: x in multiset(Filter(events, UpcomingAt(now))) - multiset(r) && 0 <= i < |r| ==>
      StartsNoLater(r[i], x)
  {
    var matching := Filter(events, UpcomingAt(now));
    forall i | 0 <= i < |r| ensures IsUpcoming(r[i], now) && r[i] in events {
      assert r[i] in multiset(r);
      assert r[i] in multiset(matching);
      var k :| 0 <= k < |matching| && matching[k] == r[i];
      InFilter(events, UpcomingAt(now), k);
    }
    forall i, j | 0 <= i < j < |r| ensures StartsNoLater(r[i], r[j]) {
      assert KeyGe(StartAscending(r[i]), StartAscending(r[j]));
    }
    forall x, i | x in multiset(matching) - multiset(r) && 0 <= i < |r| ensures StartsNoLater(r[i], x) {
      var k :| 0 <= k < |matching| && matching[k] == x;
      assert KeyGe(StartAscending(r[i]), StartAscending(x));
    }
  }

  /** `getByCategory(category)`. */
  function GetByCategory(events: seq<Record>, category: string): (r: seq<Record>)
    ensures forall i :: 0 <= i < |r| ==> r[i].category == category && r[i].isPublic
    ensures SortedDesc(r, StartDescending)
    ensures multiset(r) == multiset(Filter(events, (e: Record) => e.category == category && e.isPublic))
  {
    var r := SortDesc(Filter(events, (e: Record) => e.category == category && e.isPublic), StartDescending);
    forall i | 0 <= i < |r| ensures r[i].category == category && r[i].isPublic {
      assert r[i] in multiset(r);
    }
    r
  }

  /** The `$or` of `getByDateRange(from, to)`: the start lies in the range, or the end does, or
      the event spans the whole range. */
  predicate InDateRange(e: Record, from: int, to: int) {
    || (e.startDate.Some? && from <= e.startDate.value <= to)
    || (e.endDate.Some? && from <= e.endDate.value <= to)
    || (e.startDate.Some? && e.endDate.Some? && e.startDate.value <= from && e.endDate.value >= to)
  }

  /** For an event whose dates are in order and a range whose ends are in order, the three
      cases together say exactly that the event and the range overlap. */
  lemma DateRangeIsOverlap(e: Record, from: int, to: int)
    requires e.startDate.Some? && e.endDate.Some? && e.startDate.value <= e.endDate.value
    requires from <= to
    ensures InDateRange(e, from, to) <==> e.startDate.value <= to && e.endDate.value >= from
  {
  }

  /** `getByDateRange(from, to)`. */
  function GetByDateRange(events: seq<Record>, from: int, to: int): (r: seq<Record>)
    ensures forall i :: 0 <= i < |r| ==> r[i].isPublic && InDateRange(r[i], from, to)
    ensures SortedDesc(r, StartAscending)
    ensures multiset(r) == multiset(Filter(events, (e: Record) => e.isPublic && InDateRange(e, from, to)))
  {
    var r := SortDesc(Filter(events, (e: Record) => e.isPublic && InDateRange(e, from, to)), StartAscending);
    forall i | 0 <= i < |r| ensures r[i].isPublic && InDateRange(r[i], from, to) {
      assert r[i] in multiset(r);
    }
    r
  }

  // ---------------------------------------------------------------------------------------
  // The document
  // ---------------------------------------------------------------------------------------

  class Event {
    var id: nat
    var category: string
    var startDate: Option<int>
    var endDate: Option<int>
    var maxParticipants: Option<int>
    var registrationFee: int
    var status: string
    var isPublic: bool
    var images: seq<Image>
    var bannerImage: Option<Banner>
    var createdBy: nat
    var updatedAt: int

    function Snapshot(): Record
      reads this
    {
      Record(id, category, startDate, endDate, maxParticipants, registrationFee, status, isPublic,
             images, bannerImage, createdBy, updatedAt)
    }

    constructor (e: Record)
      ensures Snapshot() == e
    {
      id, category, startDate, endDate := e.id, e.category, e.startDate, e.endDate;
      maxParticipants, registrationFee, status, isPublic := e.maxParticipants, e.registrationFee, e.status, e.isPublic;
      images, bannerImage, createdBy, updatedAt := e.images, e.bannerImage, e.createdBy, e.updatedAt;
    }

    /** `save()`: the pre-save hook sets the status from the dates unless the event is
        cancelled. */
    method Save(now: int)
      modifies this
      ensures Snapshot() == PreSave(old(Snapshot()), now)
    {
      if status != StatusCancelled {
        if Before(now, startDate) {
          status := StatusUpcoming;
        } else if AtOrAfter(now, startDate) && AtOrBefore(now, endDate) {
          status := StatusOngoing;
        } else if After(now, endDate) {
          status := StatusCompleted;
        }
      }
    }
  }
}
