/** The `Contact` model: a message sent through the contact form and the workflow the office
    moves it through (read, assigned, answered, followed up), the pre-save hook that closes a
    message once it has an answer, the `responseTime` virtual, and the status counts of
    `getStats`.

    A document is an object of class `ContactMessage`; `getStats` works on a snapshot of the
    collection, a sequence of `Message` values. `now` is the time in milliseconds. */
module ContactModel {
  import opened Wrappers
  import opened Lists

  type AdminId = nat

  const StatusNew := "new"
  const StatusInProgress := "in-progress"
  const StatusResolved := "resolved"
  const StatusClosed := "closed"

  /** The `status` enum of the schema. */
  const Statuses: seq<string> := [StatusNew, StatusInProgress, StatusResolved, StatusClosed]

  const HourMillis := 1000 * 60 * 60

  /** The `response` sub-document; `channel` is its `method` field. */
  datatype Reply = Reply(message: string, channel: string, respondedBy: AdminId, respondedAt: int)

  /** One entry of `followUp`; `addedAt` defaults to the time of the push. */
  datatype FollowUp = FollowUp(message: string, kind: string, addedBy: AdminId, addedAt: int)

  /** The fields of a contact message the modelled code reads or writes. */
  datatype Message = Message(
    id: nat,
    category: string,
    priority: string,
    status: string,
    isRead: bool,
    readBy: Option<AdminId>,
    readAt: Option<int>,
    assignedTo: Option<AdminId>,
    assignedAt: Option<int>,
    response: Option<Reply>,
    followUp: seq<FollowUp>,
    isSpam: bool,
    createdAt: int)

  /** The enums of the schema's string paths the model holds. */
  const Categories: seq<string> :=
    ["general", "admission", "academic", "technical", "complaint", "suggestion", "media", "other"]
  const Priorities: seq<string> := ["low", "medium", "high", "urgent"]
  const ResponseMethods: seq<string> := ["email", "phone", "in-person", "other"]
  const FollowUpKinds: seq<string> := ["note", "call", "email", "meeting"]

  /** The enum validators `save()` runs over the whole document: the category, priority and
      status, the answer's `method`, and the `type` of every follow-up entry. */
  predicate EnumsHold(m: Message) {
    && m.category in Categories
    && m.priority in Priorities
    && m.status in Statuses
    && (m.response.Some? ==> m.response.value.channel in ResponseMethods)
    && forall i :: 0 <= i < |m.followUp| ==> m.followUp[i].kind in FollowUpKinds
  }

  /** The pre-save hook: a save that changed `response` to one with a message marks the
      message read and resolved. */
  function PreSave(m: Message, responseModified: bool): (s: Message)
    ensures s == m.(isRead := s.isRead, status := s.status)
    ensures (responseModified && m.response.Some? && m.response.value.message != "") ==>
      s.isRead && s.status == StatusResolved
    ensures !(responseModified && m.response.Some? && m.response.value.message != "") ==> s == m
  {
    if responseModified && m.response.Some? && m.response.value.message != "" then
      m.(isRead := true, status := StatusResolved)
    else m
  }

  /** A save that leaves `response` alone never changes the status or the read flag. */
  lemma PreSaveNeedsResponse(m: Message)
    ensures PreSave(m, false) == m
    ensures PreSave(PreSave(m, true), true) == PreSave(m, true)
  {
  }

  /** `Math.round(n / d)` for a positive divisor: the nearest integer, halves rounded up. */
  function RoundDiv(n: int, d: int): (q: int)
    requires d > 0
    ensures (2 * q - 1) * d <= 2 * n < (2 * q + 1) * d
  {
    (2 * n + d) / (2 * d)
  }

  /** The virtual `responseTime`: none before an answer, else the hours from creation to the
      answer, rounded to the nearest hour. */
  function ResponseTime(m: Message): (h: Option<int>)
    ensures h.None? <==> m.response.None?
    ensures h.Some? ==>
      var elapsed := m.response.value.respondedAt - m.createdAt;
      (2 * h.value - 1) * HourMillis <= 2 * elapsed < (2 * h.value + 1) * HourMillis
  {
    match m.response
    case None => None
    case Some(reply) => Some(RoundDiv(reply.respondedAt - m.createdAt, HourMillis))
  }

  /** An answer given within the first half hour counts as zero hours. */
  lemma QuickAnswerTakesNoHours(m: Message)
    requires m.response.Some? && 0 <= m.response.value.respondedAt - m.createdAt < HourMillis / 2
    ensures ResponseTime(m) == Some(0)
  {
  }

  // ---------------------------------------------------------------------------------------
  // getStats
  // ---------------------------------------------------------------------------------------

  /** The document `getStats` returns (the route answers zeros when there is none). */
  datatype Stats = Stats(
    total: nat, newCount: nat, inProgress: nat, resolved: nat, closed: nat, unread: nat, highPriority: nat)

  predicate HasStatus(status: string, m: Message) {
    m.status == status
  }

  predicate IsHighPriority(m: Message) {
    m.priority == "high" || m.priority == "urgent"
  }

  function StatusCount(messages: seq<Message>, status: string): (n: nat)
    ensures n <= |messages|
  {
    Count(messages, (m: Message) => HasStatus(status, m))
  }

  /** The `$group` stage of `getStats`, over every message including spam. */
  function GetStats(messages: seq<Message>): (s: Stats)
    ensures s.total == |messages|
    ensures s.newCount == |Filter(messages, (m: Message) => HasStatus(StatusNew, m))|
    ensures s.inProgress == |Filter(messages, (m: Message) => HasStatus(StatusInProgress, m))|
    ensures s.resolved == |Filter(messages, (m: Message) => HasStatus(StatusResolved, m))|
    ensures s.closed == |Filter(messages, (m: Message) => HasStatus(StatusClosed, m))|
    ensures s.unread == |Filter(messages, (m: Message) => !m.isRead)|
    ensures s.highPriority == |Filter(messages, IsHighPriority)|
    ensures s.unread <= s.total && s.highPriority <= s.total
  {
    Stats(|messages|,
          StatusCount(messages, StatusNew),
          StatusCount(messages, StatusInProgress),
          StatusCount(messages, StatusResolved),
          StatusCount(messages, StatusClosed),
          Count(messages, (m: Message) => !m.isRead),
          Count(messages, IsHighPriority))
  }

  /** When every status is one of the enum's four, the four status counts add up to the
      total. */
  lemma {:induction false} StatusCountsSumToTotal(messages: seq<Message>)
    requires forall i :: 0 <= i < |messages| ==> messages[i].status in Statuses
    ensures var s := GetStats(messages);
      s.newCount + s.inProgress + s.resolved + s.closed == s.total
    decreases |messages|
  {
    if |messages| > 0 {
      StatusCountsSumToTotal(messages[1..]);
    }
  }

  /** `stats[0] || { total: 0, ... }`: the fallback for an empty collection is what the
      aggregation would have counted. */
  function StatsAnswer(messages: seq<Message>): (s: Stats)
    ensures s == GetStats(messages)
  {
    if |messages| == 0 then Stats(0, 0, 0, 0, 0, 0, 0) else GetStats(messages)
  }

  // ---------------------------------------------------------------------------------------
  // The document
  // ---------------------------------------------------------------------------------------

  class ContactMessage {
    var id: nat
    var category: string
    var priority: string
    var status: string
    var isRead: bool
    var readBy: Option<AdminId>
    var readAt: Option<int>
    var assignedTo: Option<AdminId>
    var assignedAt: Option<int>
    var response: Option<Reply>
    var followUp: seq<FollowUp>
    var isSpam: bool
    var createdAt: int
    /** What the collection holds for this document: the last state a save wrote. */
    var stored: Message

    /** The document's fields as a value. */
    function Snapshot(): Message
      reads this
    {
      Message(id, category, priority, status, isRead, readBy, readAt, assignedTo, assignedAt,
              response, followUp, isSpam, createdAt)
    }

    /** A document loaded from the collection. */
    constructor (m: Message)
      ensures Snapshot() == m && stored == m
    {
      id, category, priority, status, isRead := m.id, m.category, m.priority, m.status, m.isRead;
      readBy, readAt, assignedTo, assignedAt := m.readBy, m.readAt, m.assignedTo, m.assignedAt;
      response, followUp, isSpam, createdAt := m.response, m.followUp, m.isSpam, m.createdAt;
      stored := m;
    }

    /** `save()`: the validators run first; when they pass, the pre-save hook runs and the
        collection takes the document, and otherwise the promise rejects with a
        `ValidationError` and nothing changes. */
    method Save(responseModified: bool) returns (ok: bool)
      modifies this
      ensures ok <==> EnumsHold(old(Snapshot()))
      ensures ok ==> Snapshot() == PreSave(old(Snapshot()), responseModified) && stored == Snapshot()
      ensures !ok ==> Snapshot() == old(Snapshot()) && stored == old(stored)
    {
      if !EnumsHold(Snapshot()) {
        return false;
      }
      if responseModified && response.Some? && response.value.message != "" {
        isRead := true;
        status := StatusResolved;
      }
      stored := Snapshot();
      ok := true;
    }

    /** `markAsRead(adminId)`: `ok` says whether its save went through. */
    method MarkAsRead(admin: AdminId, now: int) returns (ok: bool)
      modifies this
      ensures Snapshot() == old(Snapshot()).(isRead := true, readBy := Some(admin), readAt := Some(now))
      ensures ok <==> EnumsHold(Snapshot())
      ensures if ok then stored == Snapshot() else stored == old(stored)
    {
      isRead := true;
      readBy := Some(admin);
      readAt := Some(now);
      ok := Save(false);
    }

    /** `assignTo(adminId)`: the status becomes 'in-progress' whatever it was. */
    method AssignTo(admin: AdminId, now: int) returns (ok: bool)
      modifies this
      ensures Snapshot() ==
        old(Snapshot()).(assignedTo := Some(admin), assignedAt := Some(now), status := StatusInProgress)
      ensures ok <==> EnumsHold(Snapshot())
      ensures if ok then stored == Snapshot() else stored == old(stored)
    {
      assignedTo := Some(admin);
      assignedAt := Some(now);
      status := StatusInProgress;
      ok := Save(false);
    }

    /** `addResponse(data)`: the answer stamped with the time, the message resolved and read;
        the save is refused when the answer's `method` is outside its enum. */
    method AddResponse(message: string, channel: string, admin: AdminId, now: int) returns (ok: bool)
      modifies this
      ensures Snapshot() == old(Snapshot()).(response := Some(Reply(message, channel, admin, now)),
                                              status := StatusResolved, isRead := true)
      ensures ok <==> EnumsHold(Snapshot())
      ensures if ok then stored == Snapshot() else stored == old(stored)
    {
      response := Some(Reply(message, channel, admin, now));
      status := StatusResolved;
      isRead := true;
      ok := Save(true);
    }

    /** `addFollowUp(data)`: one entry appended; the save is refused when its `type` is
        outside the enum. */
    method AddFollowUp(entry: FollowUp) returns (ok: bool)
      modifies this
      ensures Snapshot() == old(Snapshot()).(followUp := old(followUp) + [entry])
      ensures |followUp| == |old(followUp)| + 1 && followUp[..|old(followUp)|] == old(followUp)
      ensures ok <==> EnumsHold(Snapshot())
      ensures if ok then stored == Snapshot() else stored == old(stored)
    {
      followUp := followUp + [entry];
      ok := Save(false);
    }
  }
}
