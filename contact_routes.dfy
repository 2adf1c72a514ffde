/** The admin routes of `/api/contact`: the listing filter, viewing a message (which marks it
    read the first time), assigning, answering, following up, the status patch and the
    statistics.

    Every route here runs behind the bearer-token middleware, so `admin` is the id of the
    authenticated requester. A lookup by id is a `Fetch`. A malformed id is answered as a
    missing message by `GET /:id` only, where it is folded into `Missing`; the other
    handlers answer it with their 500, so there it is `Failed`. */
module ContactRoutes {
  import opened Wrappers
  import opened Lists
  import opened Sorting
  import opened Http
  import opened ContactModel

  const NotFound := Response(404, "Contact message not found")
  const Failure := ServerError("Server error")
  const Ok := Response(200, "")

  // ---------------------------------------------------------------------------------------
  // GET /
  // ---------------------------------------------------------------------------------------

  /** The query-string fields the filter reads; `None` is a field not sent. */
  datatype ListParams = ListParams(
    status: Option<string>, category: Option<string>, priority: Option<string>, unreadOnly: Option<string>)

  /** The query object. Spam is excluded by every query, so it has no flag. */
  datatype ListQuery = ListQuery(
    status: Option<string>, category: Option<string>, priority: Option<string>, unreadOnly: bool)

  /** A message matches the query object; `isSpam: { $ne: true }` always applies. */
  predicate Matches(q: ListQuery, m: Message) {
    && !m.isSpam
    && (q.status.Some? ==> m.status == q.status.value)
    && (q.category.Some? ==> m.category == q.category.value)
    && (q.priority.Some? ==> m.priority == q.priority.value)
    && (q.unreadOnly ==> !m.isRead)
  }

  /** Builds the query object. The three selectors default to 'all', which adds no
      condition; `unread_only` defaults to 'false'. */
  method BuildListQuery(p: ListParams) returns (q: ListQuery)
    ensures q.status.Some? <==> p.status.GetOr("all") != "all"
    ensures q.status.Some? ==> q.status == p.status
    ensures q.category.Some? <==> p.category.GetOr("all") != "all"
    ensures q.category.Some? ==> q.category == p.category
    ensures q.priority.Some? <==> p.priority.GetOr("all") != "all"
    ensures q.priority.Some? ==> q.priority == p.priority
    ensures q.unreadOnly <==> p.unreadOnly == Some("true")
  {
    var status := p.status.GetOr("all");
    var category := p.category.GetOr("all");
    var priority := p.priority.GetOr("all");
    var unreadOnly := p.unreadOnly.GetOr("false");
    q := ListQuery(None, None, None, false);
    if status != "all" {
      q := q.(status := Some(status));
    }
    if category != "all" {
      q := q.(category := Some(category));
    }
    if priority != "all" {
      q := q.(priority := Some(priority));
    }
    if unreadOnly == "true" {
      q := q.(unreadOnly := true);
    }
  }

  function MatchesQuery(q: ListQuery): Message -> bool { (m: Message) => Matches(q, m) }

  /** `sort: { createdAt: -1 }`. */
  function NewestFirst(m: Message): Key {
    (m.createdAt, 0, 0)
  }

  /** The listing before pagination: every matching message, newest first. */
  function ListMessages(messages: seq<Message>, q: ListQuery): (r: seq<Message>)
    ensures forall i :: 0 <= i < |r| ==> Matches(q, r[i]) && r[i] in messages
    ensures forall i, j :: 0 <= i < j < |r| ==> r[i].createdAt >= r[j].createdAt
    ensures multiset(r) == multiset(Filter(messages, MatchesQuery(q)))
  {
    var matching := Filter(messages, MatchesQuery(q));
    var r := SortDesc(matching, NewestFirst);
    forall i | 0 <= i < |r| ensures Matches(q, r[i]) && r[i] in messages {
      assert r[i] in multiset(matching);
      var k :| 0 <= k < |matching| && matching[k] == r[i];
      InFilter(messages, MatchesQuery(q), k);
    }
    forall i, j | 0 <= i < j < |r| ensures r[i].createdAt >= r[j].createdAt {
      assert KeyGe(NewestFirst(r[i]), NewestFirst(r[j]));
    }
    r
  }

  /** No listing ever holds spam, and with every filter off it holds every other message. */
  lemma ListingExcludesSpam(messages: seq<Message>, q: ListQuery)
    ensures forall m :: m in ListMessages(messages, q) ==> !m.isSpam && m in messages
    ensures q == ListQuery(None, None, None, false) ==>
      multiset(ListMessages(messages, q)) == multiset(Filter(messages, (m: Message) => !m.isSpam))
  {
    forall m | m in ListMessages(messages, q) ensures !m.isSpam && m in messages {
      var i :| 0 <= i < |ListMessages(messages, q)| && ListMessages(messages, q)[i] == m;
    }
    if q == ListQuery(None, None, None, false) {
      FilterSame(messages, MatchesQuery(q), (m: Message) => !m.isSpam);
    }
  }

  lemma {:induction false} FilterSame(s: seq<Message>, p: Message -> bool, p': Message -> bool)
    requires forall m :: p(m) == p'(m)
    ensures Filter(s, p) == Filter(s, p')
    decreases |s|
  {
    if |s| > 0 {
      FilterSame(s[1..], p, p');
    }
  }

  // ---------------------------------------------------------------------------------------
  // GET /:id
  // ---------------------------------------------------------------------------------------

  /** The message after an admin opens it: marked read by that admin the first time only. */
  function Viewed(m: Message, admin: AdminId, now: int): (v: Message)
    ensures v.isRead
    ensures m.isRead ==> v == m
    ensures !m.isRead ==> v == m.(isRead := true, readBy := Some(admin), readAt := Some(now))
  {
    if m.isRead then m else m.(isRead := true, readBy := Some(admin), readAt := Some(now))
  }

  /** The first reader and the time of the first reading are kept by every later view. */
  lemma FirstReaderKept(m: Message, a1: AdminId, t1: int, a2: AdminId, t2: int)
    ensures Viewed(Viewed(m, a1, t1), a2, t2) == Viewed(m, a1, t1)
    ensures !m.isRead ==> Viewed(Viewed(m, a1, t1), a2, t2).readBy == Some(a1)
  {
  }

  /** `GET /:id`: an unread message is marked read and saved; a save the validators refuse
      is answered with the 500 and leaves the collection as it was. */
  method ViewMessage(found: Fetch<ContactMessage>, admin: AdminId, now: int) returns (response: Response)
    modifies if found.Found? then {found.record} else {}
    ensures found.Missing? ==> response == NotFound
    ensures found.Failed? ==> response == Failure
    ensures found.Found? ==> found.record.Snapshot() == Viewed(old(found.record.Snapshot()), admin, now)
    ensures found.Found? ==>
      response == if old(found.record.isRead) || EnumsHold(found.record.Snapshot()) then Ok else Failure
    ensures found.Found? ==>
      found.record.stored ==
        if !old(found.record.isRead) && response == Ok then found.record.Snapshot() else old(found.record.stored)
  {
    match found
    case Missing => response := NotFound;
    case Failed => response := Failure;
    case Found(doc) =>
      if !doc.isRead {
        var ok := doc.MarkAsRead(admin, now);
        response := if ok then Ok else Failure;
      } else {
        response := Ok;
      }
  }

  // ---------------------------------------------------------------------------------------
  // PATCH /:id/assign
  // ---------------------------------------------------------------------------------------

  /** `adminId || req.admin.id`; `assignee` is `None` when the body's `adminId` is absent or
      empty. */
  function Assignee(assignee: Option<AdminId>, admin: AdminId): (a: AdminId)
    ensures assignee.Some? ==> a == assignee.value
    ensures assignee.None? ==> a == admin
  {
    assignee.GetOr(admin)
  }

  /** The message after the assign handler. */
  function Assigned(m: Message, assignee: Option<AdminId>, admin: AdminId, now: int): (r: Message)
    ensures r.status == StatusInProgress
    ensures r.assignedTo == Some(Assignee(assignee, admin)) && r.assignedAt == Some(now)
    ensures r.(status := m.status, assignedTo := m.assignedTo, assignedAt := m.assignedAt) == m
  {
    m.(assignedTo := Some(Assignee(assignee, admin)), assignedAt := Some(now), status := StatusInProgress)
  }

  /** Assigning reopens a message that was resolved or closed. */
  lemma AssignReopens(m: Message, admin: AdminId, now: int)
    requires m.status in {StatusResolved, StatusClosed}
    ensures Assigned(m, None, admin, now).status == StatusInProgress
    ensures Assigned(m, None, admin, now).assignedTo == Some(admin)
  {
  }

  method Assign(found: Fetch<ContactMessage>, assignee: Option<AdminId>, admin: AdminId, now: int)
    returns (response: Response)
    modifies if found.Found? then {found.record} else {}
    ensures found.Missing? ==> response == NotFound
    ensures found.Failed? ==> response == Failure
    ensures found.Found? ==> found.record.Snapshot() == Assigned(old(found.record.Snapshot()), assignee, admin, now)
    ensures found.Found? ==>
      response == if EnumsHold(found.record.Snapshot()) then Response(200, "Contact assigned successfully") else Failure
    ensures found.Found? ==>
      found.record.stored == if EnumsHold(found.record.Snapshot()) then found.record.Snapshot() else old(found.record.stored)
  {
    match found
    case Missing => response := NotFound;
    case Failed => response := Failure;
    case Found(doc) =>
      var ok := doc.AssignTo(Assignee(assignee, admin), now);
      response := if ok then Response(200, "Contact assigned successfully") else Failure;
  }

  // ---------------------------------------------------------------------------------------
  // POST /:id/response and POST /:id/follow-up
  // ---------------------------------------------------------------------------------------

  const MissingReply := Response(400, "Response message is required")
  const MissingFollowUp := Response(400, "Follow-up message is required")

  /** The message after the response handler: answered by the requester over `channel`
      ('email' when not sent), read and resolved. */
  function Answered(m: Message, message: string, channel: Option<string>, admin: AdminId, now: int)
    : (r: Message)
    ensures r.response == Some(Reply(message, channel.GetOr("email"), admin, now))
    ensures r.isRead && r.status == StatusResolved
    ensures r.(response := m.response, isRead := m.isRead, status := m.status) == m
  {
    m.(response := Some(Reply(message, channel.GetOr("email"), admin, now)),
       status := StatusResolved, isRead := true)
  }

  /** An answered message has a response time. */
  lemma AnsweredHasResponseTime(m: Message, message: string, channel: Option<string>, admin: AdminId, now: int)
    ensures ResponseTime(Answered(m, message, channel, admin, now)).Some?
  {
  }

  /** The validators pass on an answered message exactly when they passed before and the
      answer's method, 'email' when not sent, is one of the four: a method such as 'fax' makes
      the save, and so the handler, fail. */
  lemma AnsweredEnumsHold(m: Message, message: string, channel: Option<string>, admin: AdminId, now: int)
    ensures EnumsHold(Answered(m, message, channel, admin, now)) <==>
      && m.category in Categories && m.priority in Priorities
      && (forall i :: 0 <= i < |m.followUp| ==> m.followUp[i].kind in FollowUpKinds)
      && channel.GetOr("email") in ResponseMethods
  {
  }

  /** The message after the follow-up handler: one entry of kind `kind` ('note' when not
      sent) appended. */
  function FollowedUp(m: Message, message: string, kind: Option<string>, admin: AdminId, now: int)
    : (r: Message)
    ensures r.followUp == m.followUp + [FollowUp(message, kind.GetOr("note"), admin, now)]
    ensures r.(followUp := m.followUp) == m
  {
    m.(followUp := m.followUp + [FollowUp(message, kind.GetOr("note"), admin, now)])
  }

  /** The validators pass after a follow-up exactly when they passed before and its kind is
      one of the four: a kind such as 'sms' makes the save, and so the handler, fail. */
  lemma FollowedUpEnumsHold(m: Message, message: string, kind: Option<string>, admin: AdminId, now: int)
    ensures EnumsHold(FollowedUp(m, message, kind, admin, now)) <==>
      EnumsHold(m) && kind.GetOr("note") in FollowUpKinds
  {
    var r := FollowedUp(m, message, kind, admin, now);
    if EnumsHold(m) && kind.GetOr("note") in FollowUpKinds {
      forall i | 0 <= i < |r.followUp| ensures r.followUp[i].kind in FollowUpKinds {
        if i < |m.followUp| {
          assert r.followUp[i] == m.followUp[i];
        }
      }
    }
    if EnumsHold(r) {
      assert r.followUp[|m.followUp|].kind == kind.GetOr("note");
      forall i | 0 <= i < |m.followUp| ensures m.followUp[i].kind in FollowUpKinds {
        assert m.followUp[i] == r.followUp[i];
      }
    }
  }

  /** The response handler. A missing or empty message is refused before the lookup, so the
      answer then does not depend on the store. */
  method Respond(message: Option<string>, channel: Option<string>, found: Fetch<ContactMessage>,
                 admin: AdminId, now: int) returns (response: Response)
    modifies if found.Found? then {found.record} else {}
    ensures !Truthy(message) ==> response == MissingReply
    ensures !Truthy(message) && found.Found? ==> found.record.Snapshot() == old(found.record.Snapshot())
    ensures Truthy(message) && found.Missing? ==> response == NotFound
    ensures Truthy(message) && found.Failed? ==> response == Failure
    ensures !Truthy(message) && found.Found? ==> found.record.stored == old(found.record.stored)
    ensures Truthy(message) && found.Found? ==>
      found.record.Snapshot() == Answered(old(found.record.Snapshot()), message.value, channel, admin, now)
    ensures Truthy(message) && found.Found? ==>
      response == if EnumsHold(found.record.Snapshot()) then Response(200, "Response added successfully") else Failure
    ensures Truthy(message) && found.Found? ==>
      found.record.stored == if EnumsHold(found.record.Snapshot()) then found.record.Snapshot() else old(found.record.stored)
  {
    if !Truthy(message) {
      return MissingReply;
    }
    match found
    case Missing => response := NotFound;
    case Failed => response := Failure;
    case Found(doc) =>
      var ok := doc.AddResponse(message.value, channel.GetOr("email"), admin, now);
      response := if ok then Response(200, "Response added successfully") else Failure;
  }

  /** The follow-up handler: one entry of kind `kind` ('note' when not sent) appended. */
  method AddFollowUp(message: Option<string>, kind: Option<string>, found: Fetch<ContactMessage>,
                     admin: AdminId, now: int) returns (response: Response)
    modifies if found.Found? then {found.record} else {}
    ensures !Truthy(message) ==> response == MissingFollowUp
    ensures !Truthy(message) && found.Found? ==> found.record.Snapshot() == old(found.record.Snapshot())
    ensures Truthy(message) && found.Missing? ==> response == NotFound
    ensures Truthy(message) && found.Failed? ==> response == Failure
    ensures !Truthy(message) && found.Found? ==> found.record.stored == old(found.record.stored)
    ensures Truthy(message) && found.Found? ==>
      found.record.Snapshot() == FollowedUp(old(found.record.Snapshot()), message.value, kind, admin, now)
    ensures Truthy(message) && found.Found? ==>
      response == if EnumsHold(found.record.Snapshot()) then Response(200, "Follow-up added successfully") else Failure
    ensures Truthy(message) && found.Found? ==>
      found.record.stored == if EnumsHold(found.record.Snapshot()) then found.record.Snapshot() else old(found.record.stored)
  {
    if !Truthy(message) {
      return MissingFollowUp;
    }
    match found
    case Missing => response := NotFound;
    case Failed => response := Failure;
    case Found(doc) =>
      var ok := doc.AddFollowUp(FollowUp(message.value, kind.GetOr("note"), admin, now));
      response := if ok then Response(200, "Follow-up added successfully") else Failure;
  }

  // ---------------------------------------------------------------------------------------
  // PATCH /:id/status
  // ---------------------------------------------------------------------------------------

  const InvalidStatus := Response(400, "Invalid status")

  /** The status patch, a `findByIdAndUpdate` of `{ status, updatedAt }` that runs no save
      hook. The whitelist is checked first, so a status outside it is refused whatever the
      store holds; the second component is the stored message after the patch. */
  function PatchStatus(status: Option<string>, found: Fetch<Message>): (r: (Response, Option<Message>))
    ensures r.0.Success() <==> status.Some? && status.value in Statuses && found.Found?
    ensures !(status.Some? && status.value in Statuses) ==> r == (InvalidStatus, None)
    ensures r.1.Some? <==> r.0.Success()
    ensures r.1.Some? ==> r.1.value == found.record.(status := status.value)
    ensures status.Some? && status.value in Statuses && found.Missing? ==> r.0 == NotFound
    ensures status.Some? && status.value in Statuses && found.Failed? ==> r == (Failure, None)
  {
    if !(status.Some? && status.value in Statuses) then (InvalidStatus, None)
    else match found
      case Missing => (NotFound, None)
      case Failed => (Failure, None)
      case Found(m) => (Response(200, "Contact status updated successfully"), Some(m.(status := status.value)))
  }

  /** The whitelist keeps every stored status inside the enum, which is what makes the status
      counts of `getStats` add up. */
  lemma PatchKeepsStatusesInEnum(status: Option<string>, found: Fetch<Message>)
    ensures PatchStatus(status, found).1.Some? ==> PatchStatus(status, found).1.value.status in Statuses
  {
  }
}
