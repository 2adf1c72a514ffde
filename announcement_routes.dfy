/** The announcement routes, `/api/announcements`: the listing filter a request builds, the
    visibility gate of a single announcement, the form handling of create and update, and the
    pin and like toggles.

    `authorization` is the raw `Authorization` header. These routes only test it for
    truthiness; they never verify it. A lookup by id (`findById`) is a `Fetch`. A malformed id
    throws an error of kind `ObjectId`: `GET /:id` answers it exactly as a missing
    announcement, so there it is folded into `Missing`; every other handler answers it with
    its 500, so there it is `Failed`. */
module AnnouncementRoutes {
  import opened Wrappers
  import opened Lists
  import opened Sorting
  import opened Http
  import opened Strings
  import opened FormData
  import opened AnnouncementModel

  const NotFound := Response(404, "Announcement not found")
  const Failure := ServerError("Server error")

  /** An answer carrying `data` and no message. */
  const Ok := Response(200, "")

  // ---------------------------------------------------------------------------------------
  // GET /
  // ---------------------------------------------------------------------------------------

  /** The query-string fields the filter reads. */
  datatype ListParams = ListParams(
    category: Option<string>, priority: Option<string>, targetAudience: Option<string>,
    department: Option<string>, activeOnly: Option<string>)

  /** `v && v !== 'all'`: a filter value that selects something. */
  predicate Selects(v: Option<string>) {
    Truthy(v) && v.value != "all"
  }

  /** The query object: whether the visibility window applies, and the equality and `$in`
      conditions that were added. */
  datatype ListQuery = ListQuery(
    window: bool, category: Option<string>, priority: Option<string>,
    audience: Option<string>, department: Option<string>)

  /** A record matches the query object. `{ $in: ['all', x] }` on an array field holds when
      the array holds 'all' or `x`. */
  predicate Matches(q: ListQuery, now: int, r: Record) {
    && (q.window ==> Visible(r, now))
    && (q.category.Some? ==> r.category == q.category.value)
    && (q.priority.Some? ==> r.priority == q.priority.value)
    && (q.audience.Some? ==> "all" in r.targetAudience || q.audience.value in r.targetAudience)
    && (q.department.Some? ==> "all" in r.department || q.department.value in r.department)
  }

  /** Builds the query object field by field. The window applies without a header and,
      since `active_only` defaults to 'true', whenever `active_only` is not sent. */
  method BuildListQuery(p: ListParams, authorization: Option<string>) returns (q: ListQuery)
    ensures q.window <==> !Truthy(authorization) || p.activeOnly.GetOr("true") == "true"
    ensures q.category.Some? <==> Selects(p.category)
    ensures q.category.Some? ==> q.category == p.category
    ensures q.priority.Some? <==> Selects(p.priority)
    ensures q.priority.Some? ==> q.priority == p.priority
    ensures q.audience.Some? <==> Selects(p.targetAudience)
    ensures q.audience.Some? ==> q.audience == p.targetAudience
    ensures q.department.Some? <==> Selects(p.department)
    ensures q.department.Some? ==> q.department == p.department
  {
    var activeOnly := p.activeOnly.GetOr("true");
    q := ListQuery(false, None, None, None, None);
    if !Truthy(authorization) || activeOnly == "true" {
      q := q.(window := true);
    }
    if Selects(p.category) {
      q := q.(category := p.category);
    }
    if Selects(p.priority) {
      q := q.(priority := p.priority);
    }
    if Selects(p.targetAudience) {
      q := q.(audience := p.targetAudience);
    }
    if Selects(p.department) {
      q := q.(department := p.department);
    }
  }

  function MatchesQuery(q: ListQuery, now: int): Record -> bool { (r: Record) => Matches(q, now, r) }

  /** The listing before pagination: every matching record, in the as-written listing order
      `{ isPinned: -1, priority: -1, publishDate: -1 }`. */
  function ListAnnouncements(records: seq<Record>, q: ListQuery, now: int): (r: seq<Record>)
    ensures forall i :: 0 <= i < |r| ==> Matches(q, now, r[i]) && r[i] in records
    ensures SortedDesc(r, ListingKeyAsWritten)
    ensures multiset(r) == multiset(Filter(records, MatchesQuery(q, now)))
  {
    Query(records, MatchesQuery(q, now), 0, ListingKeyAsWritten)
  }

  /** Under the window only visible announcements are listed; with no condition at all the
      listing holds every stored announcement. */
  lemma ListingWindow(records: seq<Record>, q: ListQuery, now: int)
    ensures q.window ==> forall r :: r in ListAnnouncements(records, q, now) ==> Visible(r, now) && r in records
    ensures q == ListQuery(false, None, None, None, None) ==>
      multiset(ListAnnouncements(records, q, now)) == multiset(records)
  {
    if q == ListQuery(false, None, None, None, None) {
      FilterAllPass(records, MatchesQuery(q, now));
    }
  }

  // ---------------------------------------------------------------------------------------
  // GET /:id
  // ---------------------------------------------------------------------------------------

  /** The gate of `GET /:id`: without a header an inactive or expired announcement is
      answered as a missing one. The publish date is not checked. */
  function ViewGate(found: Fetch<Record>, authorization: Option<string>, now: int): (o: Outcome<Record>)
    ensures o.Pass? <==>
      (found.Found? && (Truthy(authorization) || (found.record.isActive && !IsExpired(found.record, now))))
    ensures o.Pass? ==> o.value == found.record
    ensures found.Failed? ==> o == Stop(Failure)
    ensures !found.Failed? && o.Stop? ==> o == Stop(NotFound)
  {
    match found
    case Failed => Stop(Failure)
    case Missing => Stop(NotFound)
    case Found(r) =>
      if !Truthy(authorization) && (!r.isActive || IsExpired(r, now)) then Stop(NotFound) else Pass(r)
  }

  /** An active announcement scheduled for later is left out of every listing, yet served by
      id to anyone, since the gate does not look at the publish date. */
  lemma ScheduledAnnouncementServedById(r: Record, now: int)
    requires r.isActive && r.publishDate > now && r.expiryDate.None?
    ensures !Visible(r, now)
    ensures ViewGate(Found(r), None, now) == Pass(r)
  {
  }

  /** A found document as a value. */
  function Loaded(found: Fetch<Announcement>): Fetch<Record>
    reads if found.Found? then {found.record} else {}
  {
    match found
    case Found(doc) => Found(doc.Snapshot())
    case Missing => Missing
    case Failed => Failed
  }

  /** `GET /:id`: a fetch that passes the gate counts one view and saves the document. */
  method GetById(found: Fetch<Announcement>, authorization: Option<string>, now: int)
    returns (response: Response)
    modifies if found.Found? then {found.record} else {}
    ensures var gate := ViewGate(old(Loaded(found)), authorization, now);
      && (gate.Stop? ==> response == gate.response)
      && (gate.Pass? ==>
            (response == Ok
             && found.record.Snapshot() == PreSave(gate.value.(views := gate.value.views + 1), now)))
    ensures found.Found? && response != Ok ==> found.record.Snapshot() == old(found.record.Snapshot())
  {
    var gate := ViewGate(Loaded(found), authorization, now);
    if gate.Stop? {
      return gate.response;
    }
    found.record.IncrementViews(now);
    response := Ok;
  }

  // ---------------------------------------------------------------------------------------
  // POST / and PUT /:id
  // ---------------------------------------------------------------------------------------

  /** The form fields the handlers rewrite; every other field is passed to the store as
      sent. */
  datatype Form = Form(
    targetAudience: FormValue, department: FormValue, tags: FormValue,
    images: Option<seq<Image>>, replaceImages: Option<string>,
    createdBy: Option<nat>, modifiedBy: Option<nat>, updatedAt: Option<int>)

  /** The create form: the three list fields split, the uploaded files as the images, and the
      requesting admin as the author. */
  function CreateData(body: Form, files: seq<UploadedFile>, admin: nat): (d: Form)
    ensures !d.targetAudience.Text? && !d.department.Text? && !d.tags.Text?
    ensures body.tags.Text? ==> d.tags.Items? && |d.tags.items| >= 1
    ensures d.createdBy == Some(admin)
    ensures |files| > 0 ==> d.images == Some(ImagesFromFiles(files))
    ensures |files| == 0 ==> d.images == body.images
    ensures d.modifiedBy == body.modifiedBy && d.updatedAt == body.updatedAt
  {
    body.(targetAudience := ParseList(body.targetAudience),
          department := ParseList(body.department),
          tags := ParseList(body.tags),
          images := if |files| > 0 then Some(ImagesFromFiles(files)) else body.images,
          createdBy := Some(admin))
  }

  /** `POST /`: `save` is what the store does with the new document. */
  function CreateSpec(body: Form, files: seq<UploadedFile>, admin: nat, save: Form -> StoreWrite): (r: Response)
    ensures r.status == 201 <==> save(CreateData(body, files, admin)).Accepted?
    ensures r.status == 201 ==> r.message == "Announcement created successfully"
    ensures var w := save(CreateData(body, files, admin));
      (w.Rejected? ==> r == Response(400, Join(w.messages, ", ")))
      && (w.Crashed? ==> r == ServerError("Server error"))
  {
    WriteAnswer(save(CreateData(body, files, admin)), Response(201, "Announcement created successfully"))
  }

  /** The update form: the list fields split, uploaded files merged with the stored images,
      and the modifier and modification time stamped. */
  function UpdateData(body: Form, stored: seq<Image>, files: seq<UploadedFile>, admin: nat, now: int): (d: Form)
    ensures !d.targetAudience.Text? && !d.department.Text? && !d.tags.Text?
    ensures d.modifiedBy == Some(admin) && d.updatedAt == Some(now)
    ensures d.createdBy == body.createdBy
    ensures d.images.GetOr(stored) == ImagesAfterUpdate(stored, body.images, files, body.replaceImages)
  {
    var merged := MergeImages(stored, files, body.replaceImages);
    body.(targetAudience := ParseList(body.targetAudience),
          department := ParseList(body.department),
          tags := ParseList(body.tags),
          images := if merged.Some? then merged else body.images,
          modifiedBy := Some(admin),
          updatedAt := Some(now))
  }

  /** `PUT /:id`: `update` is what `findByIdAndUpdate` does with the form; it runs the
      validators but no save hook. */
  function UpdateSpec(found: Fetch<Record>, body: Form, files: seq<UploadedFile>, admin: nat, now: int,
                      update: Form -> StoreWrite): (r: Response)
    ensures found.Missing? ==> r == NotFound
    ensures found.Failed? ==> r == Failure
    ensures r.Success() <==>
      found.Found? && update(UpdateData(body, found.record.images, files, admin, now)).Accepted?
    ensures found.Found? ==>
      var w := update(UpdateData(body, found.record.images, files, admin, now));
      (w.Accepted? ==> r == Response(200, "Announcement updated successfully"))
      && (w.Rejected? ==> r == Response(400, Join(w.messages, ", ")))
      && (w.Crashed? ==> r == ServerError("Server error"))
  {
    match found
    case Missing => NotFound
    case Failed => Failure
    case Found(a) =>
      WriteAnswer(update(UpdateData(body, a.images, files, admin, now)),
                  Response(200, "Announcement updated successfully"))
  }

  // ---------------------------------------------------------------------------------------
  // PATCH /:id/pin
  // ---------------------------------------------------------------------------------------

  /** The document after the pin handler: the pin flipped, the modifier and time stamped, and
      the save hook applied. */
  function Pinned(r: Record, admin: nat, now: int): (p: Record)
    ensures p.isPinned == !r.isPinned
    ensures p.modifiedBy == Some(admin) && p.updatedAt == now
    ensures p.isActive <==> r.isActive && !IsExpired(r, now)
    ensures p.(isPinned := r.isPinned, modifiedBy := r.modifiedBy, updatedAt := r.updatedAt,
               isActive := r.isActive) == r
  {
    PreSave(r.(isPinned := !r.isPinned, modifiedBy := Some(admin), updatedAt := now), now)
  }

  function PinMessage(pinned: bool): string {
    if pinned then "Announcement pinned successfully" else "Announcement unpinned successfully"
  }

  /** Pinning twice restores the pin and leaves only the stamps and the hook's work. */
  lemma PinTwiceRestores(r: Record, admin: nat, now: int)
    ensures Pinned(Pinned(r, admin, now), admin, now)
      == PreSave(r.(modifiedBy := Some(admin), updatedAt := now), now)
  {
  }

  method TogglePin(found: Fetch<Announcement>, admin: nat, now: int) returns (response: Response)
    modifies if found.Found? then {found.record} else {}
    ensures found.Missing? ==> response == NotFound
    ensures found.Failed? ==> response == Failure
    ensures found.Found? ==>
      && found.record.Snapshot() == Pinned(old(found.record.Snapshot()), admin, now)
      && response == Response(200, PinMessage(found.record.isPinned))
  {
    match found
    case Missing => response := NotFound;
    case Failed => response := Failure;
    case Found(doc) =>
      ghost var before := doc.Snapshot();
      doc.isPinned := !doc.isPinned;
      doc.modifiedBy := Some(admin);
      doc.updatedAt := now;
      assert doc.Snapshot() == before.(isPinned := !before.isPinned, modifiedBy := Some(admin), updatedAt := now);
      doc.Save(now);
      response := Response(200, PinMessage(doc.isPinned));
  }

  // ---------------------------------------------------------------------------------------
  // POST /:id/like
  // ---------------------------------------------------------------------------------------

  /** The like list after the toggle: the admin's id removed when present, else added. */
  function LikesAfterToggle(likes: seq<UserId>, user: UserId): (r: seq<UserId>)
    ensures user in r <==> user !in likes
    ensures forall v :: v != user ==> (v in r <==> v in likes)
    ensures NoDuplicates(likes) ==> NoDuplicates(r)
  {
    if user in likes then Without(likes, user) else AppendIfAbsent(likes, user)
  }

  /** Liking and then unliking restores the list exactly. */
  lemma LikeThenUnlikeRestores(likes: seq<UserId>, user: UserId)
    requires user !in likes
    ensures LikesAfterToggle(LikesAfterToggle(likes, user), user) == likes
  {
    AppendThenRemove(likes, user);
  }

  /** The `data` of the like answer. */
  datatype LikeData = LikeData(isLiked: bool, likeCount: nat)

  method ToggleLike(found: Fetch<Announcement>, user: UserId, now: int)
    returns (response: Response, data: Option<LikeData>)
    modifies if found.Found? then {found.record} else {}
    ensures found.Missing? ==> response == NotFound && data.None?
    ensures found.Failed? ==> response == Failure && data.None?
    ensures found.Found? ==>
      var before := old(found.record.Snapshot());
      && found.record.Snapshot() == PreSave(before.(likes := LikesAfterToggle(before.likes, user)), now)
      && data == Some(LikeData(user !in before.likes, |found.record.likes|))
      && response == Response(200, if user in before.likes then "Like removed" else "Announcement liked")
  {
    match found
    case Missing =>
      response, data := NotFound, None;
    case Failed =>
      response, data := Failure, None;
    case Found(doc) =>
      var isLiked := user in doc.likes;
      if isLiked {
        doc.RemoveLike(user, now);
      } else {
        doc.AddLike(user, now);
      }
      response := Response(200, if isLiked then "Like removed" else "Announcement liked");
      data := Some(LikeData(!isLiked, |doc.likes|));
  }
}
