/** The event routes, `/api/events`: the listing filter a request builds, the gate on private
    events, the form handling of create (with its banner default) and update, and the status
    patch.

    `authorization` is the raw `Authorization` header, tested for truthiness only. A lookup
    by id is a `Fetch`. A malformed id is answered as a missing event by `GET /:id` only,
    where it is folded into `Missing`; the update and the status patch answer it with their
    500, so there it is `Failed`. */
module EventRoutes {
  import opened Wrappers
  import opened Http
  import opened Strings
  import opened FormData
  import opened EventModel

  const NotFound := Response(404, "Event not found")
  const PrivateEvent := Response(403, "Access denied to private event")
  const InvalidStatus := Response(400, "Invalid status")
  const Failure := ServerError("Server error")
  const Ok := Response(200, "")

  // ---------------------------------------------------------------------------------------
  // GET /
  // ---------------------------------------------------------------------------------------

  /** The query-string fields the filter reads; `None` is a field not sent. */
  datatype ListParams = ListParams(
    category: Option<string>, status: Option<string>, publicOnly: Option<string>,
    startDate: Option<string>, endDate: Option<string>)

  /** The query object. */
  datatype ListQuery = ListQuery(
    publicOnly: bool, status: Option<string>, category: Option<string>, startRange: Option<(int, int)>)

  /** An event matches the query object; the date range bounds the start date only. */
  predicate Matches(q: ListQuery, e: Record) {
    && (q.publicOnly ==> e.isPublic)
    && (q.status.Some? ==> e.status == q.status.value)
    && (q.category.Some? ==> e.category == q.category.value)
    && (q.startRange.Some? ==>
          e.startDate.Some? && q.startRange.value.0 <= e.startDate.value <= q.startRange.value.1)
  }

  /** Builds the query object field by field. `status` defaults to 'upcoming' and
      `public_only` to 'true'; `parseDate` is `new Date(text)`. */
  method BuildListQuery(p: ListParams, authorization: Option<string>, parseDate: string -> int)
    returns (q: ListQuery)
    ensures q.publicOnly <==> !Truthy(authorization) || p.publicOnly.GetOr("true") == "true"
    ensures q.status.Some? <==> p.status.GetOr("upcoming") != "all"
    ensures q.status.Some? ==> q.status.value == p.status.GetOr("upcoming")
    ensures q.category.Some? <==> Truthy(p.category) && p.category.value != "all"
    ensures q.category.Some? ==> q.category == p.category
    ensures q.startRange.Some? <==> Truthy(p.startDate) && Truthy(p.endDate)
    ensures q.startRange.Some? ==>
      q.startRange.value == (parseDate(p.startDate.value), parseDate(p.endDate.value))
  {
    var status := p.status.GetOr("upcoming");
    var publicOnly := p.publicOnly.GetOr("true");
    q := ListQuery(false, None, None, None);
    if !Truthy(authorization) || publicOnly == "true" {
      q := q.(publicOnly := true);
    }
    if status != "all" {
      q := q.(status := Some(status));
    }
    if Truthy(p.category) && p.category.value != "all" {
      q := q.(category := p.category);
    }
    if Truthy(p.startDate) && Truthy(p.endDate) {
      q := q.(startRange := Some((parseDate(p.startDate.value), parseDate(p.endDate.value))));
    }
  }

  /** The listing bounds only the start date, so an event already running when the range
      begins, and still running after it ends, is left out of the listing although
      `getByDateRange` returns it. */
  lemma ListingRangeIsNarrowerThanDateRange(e: Record, from: int, to: int)
    requires e.isPublic && e.startDate.Some? && e.endDate.Some?
    requires e.startDate.value < from <= to < e.endDate.value
    ensures InDateRange(e, from, to)
    ensures !Matches(ListQuery(false, None, None, Some((from, to))), e)
  {
  }

  // ---------------------------------------------------------------------------------------
  // GET /:id
  // ---------------------------------------------------------------------------------------

  /** The gate of `GET /:id`: a private event needs a header (any truthy one). */
  function ViewGate(found: Fetch<Record>, authorization: Option<string>): (o: Outcome<Record>)
    ensures o.Pass? <==> found.Found? && (found.record.isPublic || Truthy(authorization))
    ensures o.Pass? ==> o.value == found.record
    ensures found.Missing? ==> o == Stop(NotFound)
    ensures found.Failed? ==> o == Stop(Failure)
    ensures found.Found? && o.Stop? ==> o == Stop(PrivateEvent)
  {
    match found
    case Missing => Stop(NotFound)
    case Failed => Stop(Failure)
    case Found(e) => if !e.isPublic && !Truthy(authorization) then Stop(PrivateEvent) else Pass(e)
  }

  /** A public event is served to anyone; a private one only with a header. */
  lemma PrivateEventsNeedHeader(e: Record, authorization: Option<string>)
    ensures ViewGate(Found(e), None) == (if e.isPublic then Pass(e) else Stop(PrivateEvent))
    ensures Truthy(authorization) ==> ViewGate(Found(e), authorization) == Pass(e)
  {
  }

  // ---------------------------------------------------------------------------------------
  // POST / and PUT /:id
  // ---------------------------------------------------------------------------------------

  /** The form fields the handlers rewrite; every other field is passed on as sent.
      `bannerImage` is `None` when it is absent or empty. */
  datatype Form = Form(
    images: Option<seq<Image>>, bannerImage: Option<Banner>, replaceImages: Option<string>,
    createdBy: Option<nat>, updatedAt: Option<int>)

  /** The create form: with files, the images are the uploads and the banner defaults to the
      first upload; the requesting admin is the author. */
  function CreateData(body: Form, files: seq<UploadedFile>, admin: nat): (d: Form)
    ensures d.createdBy == Some(admin)
    ensures |files| > 0 ==> d.images == Some(ImagesFromFiles(files))
    ensures |files| > 0 && body.bannerImage.None? ==>
      d.bannerImage == Some(Banner(files[0].path, files[0].filename))
    ensures body.bannerImage.Some? ==> d.bannerImage == body.bannerImage
    ensures |files| == 0 ==> d == body.(createdBy := Some(admin))
  {
    if |files| == 0 then body.(createdBy := Some(admin))
    else
      body.(images := Some(ImagesFromFiles(files)),
            bannerImage := if body.bannerImage.None? then Some(Banner(files[0].path, files[0].filename))
                           else body.bannerImage,
            createdBy := Some(admin))
  }

  /** The banner, when it defaults, is the first of the new images. */
  lemma DefaultBannerIsFirstImage(body: Form, files: seq<UploadedFile>, admin: nat)
    requires |files| > 0 && body.bannerImage.None?
    ensures var d := CreateData(body, files, admin);
      d.bannerImage.value.url == d.images.value[0].url
      && d.bannerImage.value.publicId == d.images.value[0].publicId
  {
  }

  /** `POST /`: `save` is what the store does with the new document (its validators, then the
      pre-save hook). */
  function CreateSpec(body: Form, files: seq<UploadedFile>, admin: nat, save: Form -> StoreWrite): (r: Response)
    ensures r.status == 201 <==> save(CreateData(body, files, admin)).Accepted?
    ensures r.status == 201 ==> r.message == "Event created successfully"
    ensures var w := save(CreateData(body, files, admin));
      (w.Rejected? ==> r == Response(400, Join(w.messages, ", ")))
      && (w.Crashed? ==> r == ServerError("Server error"))
  {
    WriteAnswer(save(CreateData(body, files, admin)), Response(201, "Event created successfully"))
  }

  /** The update form: uploads merged with the stored images, the time stamped. Unlike the
      announcement update, no modifier is recorded. */
  function UpdateData(body: Form, stored: seq<Image>, files: seq<UploadedFile>, now: int): (d: Form)
    ensures d.updatedAt == Some(now)
    ensures d.images.GetOr(stored) == ImagesAfterUpdate(stored, body.images, files, body.replaceImages)
    ensures d.(images := body.images, updatedAt := body.updatedAt) == body
  {
    var merged := MergeImages(stored, files, body.replaceImages);
    body.(images := if merged.Some? then merged else body.images, updatedAt := Some(now))
  }

  /** `PUT /:id`: `update` is what `findByIdAndUpdate` does with the form; it runs the
      validators but not the status hook. */
  function UpdateSpec(found: Fetch<Record>, body: Form, files: seq<UploadedFile>, now: int,
                      update: Form -> StoreWrite): (r: Response)
    ensures found.Missing? ==> r == NotFound
    ensures found.Failed? ==> r == Failure
    ensures r.Success() <==> found.Found? && update(UpdateData(body, found.record.images, files, now)).Accepted?
    ensures found.Found? ==>
      var w := update(UpdateData(body, found.record.images, files, now));
      (w.Accepted? ==> r == Response(200, "Event updated successfully"))
      && (w.Rejected? ==> r == Response(400, Join(w.messages, ", ")))
      && (w.Crashed? ==> r == ServerError("Server error"))
  {
    match found
    case Missing => NotFound
    case Failed => Failure
    case Found(e) => WriteAnswer(update(UpdateData(body, e.images, files, now)), Response(200, "Event updated successfully"))
  }

  // ---------------------------------------------------------------------------------------
  // PATCH /:id/status
  // ---------------------------------------------------------------------------------------

  /** The status patch, a `findByIdAndUpdate` of `{ status, updatedAt }`. The whitelist is
      checked before the store is touched; the second component is the stored event after
      the patch. */
  function PatchStatus(status: Option<string>, found: Fetch<Record>, now: int): (r: (Response, Option<Record>))
    ensures r.0.Success() <==> status.Some? && status.value in Statuses && found.Found?
    ensures !(status.Some? && status.value in Statuses) ==> r == (InvalidStatus, None)
    ensures r.1.Some? <==> r.0.Success()
    ensures r.1.Some? ==> r.1.value == found.record.(status := status.value, updatedAt := now)
    ensures status.Some? && status.value in Statuses && found.Missing? ==> r.0 == NotFound
    ensures status.Some? && status.value in Statuses && found.Failed? ==> r == (Failure, None)
  {
    if !(status.Some? && status.value in Statuses) then (InvalidStatus, None)
    else match found
      case Missing => (NotFound, None)
      case Failed => (Failure, None)
      case Found(e) => (Response(200, "Event status updated successfully"), Some(e.(status := status.value, updatedAt := now)))
  }

  /** The patch bypasses the hook: an event that has ended can be set back to 'upcoming', and
      keeps that status until its next `save()`, which would make it 'completed'. */
  lemma PatchSkipsStatusHook(e: Record, now: int)
    requires e.startDate.Some? && e.endDate.Some? && e.startDate.value <= e.endDate.value < now
    ensures PatchStatus(Some(StatusUpcoming), Found(e), now).1 == Some(e.(status := StatusUpcoming, updatedAt := now))
    ensures PreSave(e.(status := StatusUpcoming, updatedAt := now), now).status == StatusCompleted
  {
  }
}
