/** The administrator dashboard's client-side store: the staff, alumni, event and announcement
    lists it keeps in the browser's `localStorage`, the save, delete and toggle operations that
    rewrite them, the seeding of missing lists, the list of published announcements the public
    page reads, and the session check that guards the page.

    An object of class `Dashboard` is the dashboard together with the `localStorage` keys it
    owns: a key that is not set is `None`, and a list is kept as the array its JSON text
    encodes. Reading a key that is not set gives the empty list (`|| '[]'`). A form is the
    map from field names to the values the browser submits; the `confirm()` dialogs are
    parameters. `now` is `Date.now()`, in milliseconds. */
module AdminDashboard {
  import opened Wrappers
  import opened Strings
  import opened Lists
  import opened AdminLogin

  /** An element of a managed list: its `id` and the rest of its fields. */
  datatype Entry<T> = Entry(id: int, data: T)

  type Form = map<string, string>

  /** `formData.get(name)`: the value, or `null` for a field that is not submitted. */
  function Field(form: Form, name: string): Option<string> {
    if name in form then Some(form[name]) else None
  }

  /** `formData.get(name) || ''`. */
  function FieldOrEmpty(form: Form, name: string): string {
    if name in form then form[name] else ""
  }

  /** `preview || ''`. */
  function PreviewOrEmpty(preview: Option<string>): string {
    preview.GetOr("")
  }

  // ---------------------------------------------------------------------------------------
  // The records
  // ---------------------------------------------------------------------------------------

  datatype StaffData = StaffData(
    name: Option<string>, designation: Option<string>, department: Option<string>,
    email: Option<string>, phone: Option<string>,
    qualification: string, experience: string, specialization: string, photo: string)

  datatype AlumniData = AlumniData(
    name: Option<string>, batchYear: Option<string>, department: Option<string>,
    currentPosition: Option<string>, company: Option<string>,
    location: string, email: string, phone: string, photo: string)

  datatype EventData = EventData(
    title: Option<string>, description: Option<string>, date: Option<string>, time: Option<string>,
    venue: Option<string>, category: Option<string>, organizer: Option<string>, image: string)

  datatype NoticeData = NoticeData(
    title: Option<string>, content: Option<string>, category: Option<string>, priority: Option<string>,
    date: Option<string>, document: string, isActive: bool)

  type Staff = Entry<StaffData>
  type Alumnus = Entry<AlumniData>
  type EventItem = Entry<EventData>
  type Notice = Entry<NoticeData>

  function StaffFromForm(form: Form, photo: Option<string>): StaffData {
    StaffData(Field(form, "name"), Field(form, "designation"), Field(form, "department"),
              Field(form, "email"), Field(form, "phone"), FieldOrEmpty(form, "qualification"),
              FieldOrEmpty(form, "experience"), FieldOrEmpty(form, "specialization"), PreviewOrEmpty(photo))
  }

  function AlumniFromForm(form: Form, photo: Option<string>): AlumniData {
    AlumniData(Field(form, "name"), Field(form, "batchYear"), Field(form, "department"),
               Field(form, "currentPosition"), Field(form, "company"), FieldOrEmpty(form, "location"),
               FieldOrEmpty(form, "email"), FieldOrEmpty(form, "phone"), PreviewOrEmpty(photo))
  }

  function EventFromForm(form: Form, image: Option<string>): EventData {
    EventData(Field(form, "title"), Field(form, "description"), Field(form, "date"), Field(form, "time"),
              Field(form, "venue"), Field(form, "category"), Field(form, "organizer"), PreviewOrEmpty(image))
  }

  /** The checkbox `isActive` is submitted as "on" when ticked and not at all otherwise. */
  function NoticeFromForm(form: Form, document: Option<string>): NoticeData {
    NoticeData(Field(form, "title"), Field(form, "content"), Field(form, "category"), Field(form, "priority"),
               Field(form, "date"), PreviewOrEmpty(document), Field(form, "isActive") == Some("on"))
  }

  // ---------------------------------------------------------------------------------------
  // The list operations
  // ---------------------------------------------------------------------------------------

  predicate HasId<T>(id: int, e: Entry<T>) {
    e.id == id
  }

  /** `list.findIndex(x => x.id === id)`, with `None` for -1. */
  function IndexOf<T>(s: seq<Entry<T>>, id: int): (k: Option<nat>)
    ensures k.Some? ==> k.value < |s| && s[k.value].id == id
    ensures k.Some? ==> forall j :: 0 <= j < k.value ==> s[j].id != id
    ensures k.None? <==> forall j :: 0 <= j < |s| ==> s[j].id != id
  {
    FirstIndex(s, (e: Entry<T>) => HasId(id, e))
  }

  /** Two lists with the same ids at the same positions have the same first match. */
  lemma IndexOfDependsOnIdsOnly<T, U>(s: seq<Entry<T>>, t: seq<Entry<U>>, id: int)
    requires |s| == |t| && forall j :: 0 <= j < |s| ==> s[j].id == t[j].id
    ensures IndexOf(s, id) == IndexOf(t, id)
  {
    assert forall j :: 0 <= j < |s| ==> (s[j].id == id <==> t[j].id == id);
  }

  /** The edit branch of a save: `list[index] = entry` at the first element with the entry's
      id, nothing when there is none. */
  function Replaced<T>(s: seq<Entry<T>>, entry: Entry<T>): (r: seq<Entry<T>>)
    ensures |r| == |s|
    ensures IndexOf(s, entry.id).None? ==> r == s
    ensures IndexOf(s, entry.id).Some? ==>
      var k := IndexOf(s, entry.id).value;
      r[k] == entry && forall j :: 0 <= j < |s| && j != k ==> r[j] == s[j]
  {
    match IndexOf(s, entry.id)
    case None => s
    case Some(k) => s[k := entry]
  }

  /** An edit keeps the ids of the list, position by position. */
  lemma ReplaceKeepsIds<T>(s: seq<Entry<T>>, entry: Entry<T>)
    ensures forall j :: 0 <= j < |s| ==> Replaced(s, entry)[j].id == s[j].id
  {
  }

  /** Saving the same edit twice is saving it once. */
  lemma ReplaceIdempotent<T>(s: seq<Entry<T>>, entry: Entry<T>)
    ensures Replaced(Replaced(s, entry), entry) == Replaced(s, entry)
  {
    ReplaceKeepsIds(s, entry);
    IndexOfDependsOnIdsOnly(Replaced(s, entry), s, entry.id);
  }

  /** Only the first of several elements with the edited id is replaced. */
  lemma ReplaceFirstOnly<T>(s: seq<Entry<T>>, entry: Entry<T>, i: nat, j: nat)
    requires i < j < |s| && s[i].id == entry.id && s[j].id == entry.id
    ensures Replaced(s, entry)[j] == s[j]
  {
  }

  /** A save: an edit replaces in place, a new record is pushed at the end. */
  function Saved<T>(s: seq<Entry<T>>, entry: Entry<T>, isEdit: bool): (r: seq<Entry<T>>)
    ensures !isEdit ==> |r| == |s| + 1 && r[..|s|] == s && r[|s|] == entry
    ensures isEdit ==> |r| == |s| && forall j :: 0 <= j < |s| ==> r[j].id == s[j].id
    ensures isEdit && IndexOf(s, entry.id).None? ==> r == s
    ensures isEdit && IndexOf(s, entry.id).Some? ==> r[IndexOf(s, entry.id).value] == entry
  {
    if isEdit then Replaced(s, entry) else s + [entry]
  }

  /** `list.filter(x => x.id !== id)`. */
  function Deleted<T(==)>(s: seq<Entry<T>>, id: int): (r: seq<Entry<T>>)
    ensures forall e :: e in r ==> e in s && e.id != id
    ensures forall e :: e in s && e.id != id ==> e in r && multiset(r)[e] == multiset(s)[e]
    ensures IsSubsequence(r, s)
  {
    var keep := (x: Entry<T>) => !HasId(id, x);
    var r := Filter(s, keep);
    forall e | e in r ensures e in s && e.id != id {
      FilterMultiplicity(s, keep, e);
      assert e in multiset(r);
    }
    forall e | e in s && e.id != id ensures e in r && multiset(r)[e] == multiset(s)[e] {
      FilterMultiplicity(s, keep, e);
      assert e in multiset(s);
    }
    FilterIsSubsequence(s, keep);
    r
  }

  /** Deleting a record that was just added, under an id no other record has, gives back the
      list as it was. */
  lemma DeleteUndoesAdd<T>(s: seq<Entry<T>>, entry: Entry<T>)
    requires forall j :: 0 <= j < |s| ==> s[j].id != entry.id
    ensures Deleted(Saved(s, entry, false), entry.id) == s
  {
    var p := (x: Entry<T>) => !HasId(entry.id, x);
    FilterAppend(s, [entry], p);
    FilterAllPass(s, p);
    assert Filter([entry], p) == [];
  }

  /** Deleting twice is deleting once. */
  lemma DeleteIdempotent<T>(s: seq<Entry<T>>, id: int)
    ensures Deleted(Deleted(s, id), id) == Deleted(s, id)
  {
    var r := Deleted(s, id);
    var p := (x: Entry<T>) => !HasId(id, x);
    assert forall j :: 0 <= j < |r| ==> r[j] in r;
    FilterAllPass(r, p);
  }

  /** `announcements[index].isActive = !announcements[index].isActive` at the first match. */
  function Toggled(s: seq<Notice>, id: int): (r: seq<Notice>)
    ensures |r| == |s|
    ensures forall j :: 0 <= j < |s| ==> r[j].id == s[j].id
    ensures IndexOf(s, id).None? ==> r == s
    ensures IndexOf(s, id).Some? ==>
      var k := IndexOf(s, id).value;
      r[k] == s[k].(data := s[k].data.(isActive := !s[k].data.isActive))
      && forall j :: 0 <= j < |s| && j != k ==> r[j] == s[j]
  {
    match IndexOf(s, id)
    case None => s
    case Some(k) => s[k := s[k].(data := s[k].data.(isActive := !s[k].data.isActive))]
  }

  /** Toggling twice restores the list. */
  lemma ToggleTwiceRestores(s: seq<Notice>, id: int)
    ensures Toggled(Toggled(s, id), id) == s
  {
    IndexOfDependsOnIdsOnly(Toggled(s, id), s, id);
  }

  // ---------------------------------------------------------------------------------------
  // Published announcements
  // ---------------------------------------------------------------------------------------

  /** An element of the `soetAnnouncements` list. */
  datatype Publication = Publication(
    id: nat, title: string, content: string, priority: string, expiry: string, timestamp: int, status: string)

  const MissingTitleOrContent := "Please fill in title and content"

  /** `publishAnnouncement()` on the stored list: a blank title or content is refused, and a
      new announcement takes the next number as its id. */
  function Published(s: seq<Publication>, title: string, content: string, priority: string,
                     expiry: string, now: int): (r: Option<seq<Publication>>)
    ensures r.None? <==> Trim(title) == "" || Trim(content) == ""
    ensures r.Some? ==> |r.value| == |s| + 1 && r.value[..|s|] == s
    ensures r.Some? ==>
      var p := r.value[|s|];
      p.id == |s| + 1 && p.title == Trim(title) && p.content == Trim(content) && p.status == "published"
      && p.priority == priority && p.expiry == expiry && p.timestamp == now
  {
    var t, c := Trim(title), Trim(content);
    if t == "" || c == "" then None
    else Some(s + [Publication(|s| + 1, t, c, priority, expiry, now, "published")])
  }

  /** The ids of a list built only by publishing count 1, 2, 3, ... */
  predicate IdsCountUp(s: seq<Publication>) {
    forall i :: 0 <= i < |s| ==> s[i].id == i + 1
  }

  /** Publishing keeps the ids counting up, and so no two publications share an id. */
  lemma PublishingKeepsIdsDistinct(s: seq<Publication>, title: string, content: string, priority: string,
                                   expiry: string, now: int)
    requires IdsCountUp(s)
    ensures var r := Published(s, title, content, priority, expiry, now);
      r.Some? ==> IdsCountUp(r.value) && forall i, j :: 0 <= i < j < |r.value| ==> r.value[i].id != r.value[j].id
  {
    var r := Published(s, title, content, priority, expiry, now);
    if r.Some? {
      forall i | 0 <= i < |r.value| ensures r.value[i].id == i + 1 {
        if i < |s| {
          assert r.value[i] == r.value[..|s|][i];
        }
      }
    }
  }

  // ---------------------------------------------------------------------------------------
  // The dashboard
  // ---------------------------------------------------------------------------------------

  const SeedStaff: seq<Staff> := [
    Entry(1, StaffData(Some("Dr. Rajesh Kumar"), Some("Professor & Head"), Some("Computer Science"),
                       Some("rajesh.kumar@soet.ac.in"), Some("+91 9876543210"), "Ph.D. in Computer Science",
                       "15 years", "Machine Learning, Data Science", "")),
    Entry(2, StaffData(Some("Dr. Priya Sharma"), Some("Associate Professor"), Some("Electrical Engineering"),
                       Some("priya.sharma@soet.ac.in"), Some("+91 9876543211"), "Ph.D. in Electrical Engineering",
                       "12 years", "Power Systems, Renewable Energy", ""))]

  const SeedAlumni: seq<Alumnus> := [
    Entry(1, AlumniData(Some("Amit Patel"), Some("2020"), Some("Computer Science"), Some("Software Engineer at TCS"),
                        Some("Tata Consultancy Services"), "Bangalore", "amit.patel@gmail.com", "+91 9876543212", "")),
    Entry(2, AlumniData(Some("Neha Singh"), Some("2019"), Some("Mechanical Engineering"), Some("Design Engineer at Mahindra"),
                        Some("Mahindra & Mahindra"), "Pune", "neha.singh@gmail.com", "+91 9876543213", ""))]

  const SeedEvents: seq<EventItem> := [
    Entry(1, EventData(Some("Tech Fest 2024"), Some("Annual technical festival showcasing innovation and creativity"),
                       Some("2024-03-15"), Some("09:00"), Some("SOET Auditorium"), Some("Technical"),
                       Some("Computer Science Department"), "")),
    Entry(2, EventData(Some("Industry Expert Lecture"), Some("Guest lecture on emerging technologies in engineering"),
                       Some("2024-02-20"), Some("14:00"), Some("Conference Hall"), Some("Educational"),
                       Some("Academic Affairs"), ""))]

  const SeedNotices: seq<Notice> := [
    Entry(1, NoticeData(Some("Admission Open for 2024-25"),
                        Some("Applications are now open for undergraduate and postgraduate programs"),
                        Some("Admission"), Some("high"), Some("2024-01-15"), "", true)),
    Entry(2, NoticeData(Some("Workshop on AI and Machine Learning"),
                        Some("One week intensive workshop for students and faculty members"),
                        Some("Workshop"), Some("medium"), Some("2024-01-10"), "", true))]

  class Dashboard {
    /** The `staffMembers`, `alumniMembers`, `events`, `announcements` and
        `soetAnnouncements` keys of `localStorage`. */
    var staffMembers: Option<seq<Staff>>
    var alumniMembers: Option<seq<Alumnus>>
    var events: Option<seq<EventItem>>
    var announcements: Option<seq<Notice>>
    var soetAnnouncements: Option<seq<Publication>>
    /** The image or document chosen in the open form, `null` when there is none. */
    var currentImagePreview: Option<string>
    var currentDocumentPreview: Option<string>

    constructor (staff: Option<seq<Staff>>, alumni: Option<seq<Alumnus>>, eventList: Option<seq<EventItem>>,
                 notices: Option<seq<Notice>>, published: Option<seq<Publication>>)
      ensures staffMembers == staff && alumniMembers == alumni && events == eventList
      ensures announcements == notices && soetAnnouncements == published
      ensures currentImagePreview == None && currentDocumentPreview == None
    {
      staffMembers, alumniMembers, events := staff, alumni, eventList;
      announcements, soetAnnouncements := notices, published;
      currentImagePreview, currentDocumentPreview := None, None;
    }

    /** `initializeData()`: each of the four lists is seeded when its key is not set; a list
        that is set, even to the empty list, is kept. */
    method InitializeData()
      modifies this
      ensures staffMembers == Some(old(staffMembers).GetOr(SeedStaff))
      ensures alumniMembers == Some(old(alumniMembers).GetOr(SeedAlumni))
      ensures events == Some(old(events).GetOr(SeedEvents))
      ensures announcements == Some(old(announcements).GetOr(SeedNotices))
      ensures soetAnnouncements == old(soetAnnouncements)
      ensures currentImagePreview == old(currentImagePreview) && currentDocumentPreview == old(currentDocumentPreview)
    {
      if staffMembers.None? {
        staffMembers := Some(SeedStaff);
      }
      if alumniMembers.None? {
        alumniMembers := Some(SeedAlumni);
      }
      if events.None? {
        events := Some(SeedEvents);
      }
      if announcements.None? {
        announcements := Some(SeedNotices);
      }
    }

    /** `saveStaff(event, isEdit, staffId)`: a new member takes `Date.now()` as its id; the
        photo is the one chosen in the form, which is then forgotten. */
    method SaveStaff(form: Form, isEdit: bool, staffId: int, now: int)
      modifies this
      ensures staffMembers == Some(Saved(old(staffMembers).GetOr([]),
                                         Entry(if isEdit then staffId else now, StaffFromForm(form, old(currentImagePreview))),
                                         isEdit))
      ensures currentImagePreview == None
      ensures alumniMembers == old(alumniMembers) && events == old(events) && announcements == old(announcements)
      ensures soetAnnouncements == old(soetAnnouncements) && currentDocumentPreview == old(currentDocumentPreview)
    {
      var staff := staffMembers.GetOr([]);
      var entry := Entry(if isEdit then staffId else now, StaffFromForm(form, currentImagePreview));
      if isEdit {
        var index := IndexOf(staff, staffId);
        if index.Some? {
          staff := staff[index.value := entry];
        }
      } else {
        staff := staff + [entry];
      }
      staffMembers := Some(staff);
      currentImagePreview := None;
    }

    /** `saveAlumni(event, isEdit, alumniId)`. */
    method SaveAlumni(form: Form, isEdit: bool, alumniId: int, now: int)
      modifies this
      ensures alumniMembers == Some(Saved(old(alumniMembers).GetOr([]),
                                          Entry(if isEdit then alumniId else now, AlumniFromForm(form, old(currentImagePreview))),
                                          isEdit))
      ensures currentImagePreview == None
      ensures staffMembers == old(staffMembers) && events == old(events) && announcements == old(announcements)
      ensures soetAnnouncements == old(soetAnnouncements) && currentDocumentPreview == old(currentDocumentPreview)
    {
      var alumni := alumniMembers.GetOr([]);
      var entry := Entry(if isEdit then alumniId else now, AlumniFromForm(form, currentImagePreview));
      if isEdit {
        var index := IndexOf(alumni, alumniId);
        if index.Some? {
          alumni := alumni[index.value := entry];
        }
      } else {
        alumni := alumni + [entry];
      }
      alumniMembers := Some(alumni);
      currentImagePreview := None;
    }

    /** `saveEvent(event, isEdit, eventId)`. */
    method SaveEvent(form: Form, isEdit: bool, eventId: int, now: int)
      modifies this
      ensures events == Some(Saved(old(events).GetOr([]),
                                   Entry(if isEdit then eventId else now, EventFromForm(form, old(currentImagePreview))),
                                   isEdit))
      ensures currentImagePreview == None
      ensures staffMembers == old(staffMembers) && alumniMembers == old(alumniMembers) && announcements == old(announcements)
      ensures soetAnnouncements == old(soetAnnouncements) && currentDocumentPreview == old(currentDocumentPreview)
    {
      var list := events.GetOr([]);
      var entry := Entry(if isEdit then eventId else now, EventFromForm(form, currentImagePreview));
      if isEdit {
        var index := IndexOf(list, eventId);
        if index.Some? {
          list := list[index.value := entry];
        }
      } else {
        list := list + [entry];
      }
      events := Some(list);
      currentImagePreview := None;
    }

    /** `saveAnnouncement(event, isEdit, announcementId)`: the attached document plays the
        part of the photo. */
    method SaveAnnouncement(form: Form, isEdit: bool, announcementId: int, now: int)
      modifies this
      ensures announcements == Some(Saved(old(announcements).GetOr([]),
                                          Entry(if isEdit then announcementId else now, NoticeFromForm(form, old(currentDocumentPreview))),
                                          isEdit))
      ensures currentDocumentPreview == None
      ensures staffMembers == old(staffMembers) && alumniMembers == old(alumniMembers) && events == old(events)
      ensures soetAnnouncements == old(soetAnnouncements) && currentImagePreview == old(currentImagePreview)
    {
      var list := announcements.GetOr([]);
      var entry := Entry(if isEdit then announcementId else now, NoticeFromForm(form, currentDocumentPreview));
      if isEdit {
        var index := IndexOf(list, announcementId);
        if index.Some? {
          list := list[index.value := entry];
        }
      } else {
        list := list + [entry];
      }
      announcements := Some(list);
      currentDocumentPreview := None;
    }

    /** `deleteStaff(id)`, after the administrator confirms. */
    method DeleteStaff(id: int, confirmed: bool)
      modifies this
      ensures staffMembers == if confirmed then Some(Deleted(old(staffMembers).GetOr([]), id)) else old(staffMembers)
      ensures alumniMembers == old(alumniMembers) && events == old(events) && announcements == old(announcements)
      ensures soetAnnouncements == old(soetAnnouncements)
      ensures currentImagePreview == old(currentImagePreview) && currentDocumentPreview == old(currentDocumentPreview)
    {
      if confirmed {
        staffMembers := Some(Deleted(staffMembers.GetOr([]), id));
      }
    }

    /** `deleteAlumni(id)`. */
    method DeleteAlumni(id: int, confirmed: bool)
      modifies this
      ensures alumniMembers == if confirmed then Some(Deleted(old(alumniMembers).GetOr([]), id)) else old(alumniMembers)
      ensures staffMembers == old(staffMembers) && events == old(events) && announcements == old(announcements)
      ensures soetAnnouncements == old(soetAnnouncements)
      ensures currentImagePreview == old(currentImagePreview) && currentDocumentPreview == old(currentDocumentPreview)
    {
      if confirmed {
        alumniMembers := Some(Deleted(alumniMembers.GetOr([]), id));
      }
    }

    /** `deleteEvent(id)`. */
    method DeleteEvent(id: int, confirmed: bool)
      modifies this
      ensures events == if confirmed then Some(Deleted(old(events).GetOr([]), id)) else old(events)
      ensures staffMembers == old(staffMembers) && alumniMembers == old(alumniMembers) && announcements == old(announcements)
      ensures soetAnnouncements == old(soetAnnouncements)
      ensures currentImagePreview == old(currentImagePreview) && currentDocumentPreview == old(currentDocumentPreview)
    {
      if confirmed {
        events := Some(Deleted(events.GetOr([]), id));
      }
    }

    /** `deleteAnnouncement(id)`. */
    method DeleteAnnouncement(id: int, confirmed: bool)
      modifies this
      ensures announcements == if confirmed then Some(Deleted(old(announcements).GetOr([]), id)) else old(announcements)
      ensures staffMembers == old(staffMembers) && alumniMembers == old(alumniMembers) && events == old(events)
      ensures soetAnnouncements == old(soetAnnouncements)
      ensures currentImagePreview == old(currentImagePreview) && currentDocumentPreview == old(currentDocumentPreview)
    {
      if confirmed {
        announcements := Some(Deleted(announcements.GetOr([]), id));
      }
    }

    /** `toggleAnnouncement(id)`: flips the first match and writes the list back; with no
        match nothing is written. The notification tells the new state. */
    method ToggleAnnouncement(id: int) returns (notification: Option<string>)
      modifies this
      ensures IndexOf(old(announcements).GetOr([]), id).None? ==> announcements == old(announcements) && notification.None?
      ensures IndexOf(old(announcements).GetOr([]), id).Some? ==>
        announcements == Some(Toggled(old(announcements).GetOr([]), id))
        && var k := IndexOf(old(announcements).GetOr([]), id).value;
           notification == Some(if announcements.value[k].data.isActive then "Announcement activated successfully!"
                                else "Announcement deactivated successfully!")
      ensures staffMembers == old(staffMembers) && alumniMembers == old(alumniMembers) && events == old(events)
      ensures soetAnnouncements == old(soetAnnouncements)
      ensures currentImagePreview == old(currentImagePreview) && currentDocumentPreview == old(currentDocumentPreview)
    {
      var list := announcements.GetOr([]);
      var index := IndexOf(list, id);
      notification := None;
      if index.Some? {
        var k := index.value;
        list := list[k := list[k].(data := list[k].data.(isActive := !list[k].data.isActive))];
        announcements := Some(list);
        notification := Some(if list[k].data.isActive then "Announcement activated successfully!"
                             else "Announcement deactivated successfully!");
      }
    }

    /** `publishAnnouncement()` with the four inputs of its form; the fields are trimmed
        except the priority and the expiry. */
    method PublishAnnouncement(title: string, content: string, priority: string, expiry: string, now: int)
      returns (error: Option<string>)
      modifies this
      ensures var r := Published(old(soetAnnouncements).GetOr([]), title, content, priority, expiry, now);
        && (r.None? ==> error == Some(MissingTitleOrContent) && soetAnnouncements == old(soetAnnouncements))
        && (r.Some? ==> error.None? && soetAnnouncements == r)
      ensures staffMembers == old(staffMembers) && alumniMembers == old(alumniMembers) && events == old(events)
      ensures announcements == old(announcements)
      ensures currentImagePreview == old(currentImagePreview) && currentDocumentPreview == old(currentDocumentPreview)
    {
      var published := Published(soetAnnouncements.GetOr([]), title, content, priority, expiry, now);
      if published.None? {
        return Some(MissingTitleOrContent);
      }
      soetAnnouncements := published;
      error := None;
    }
  }

  // ---------------------------------------------------------------------------------------
  // The session check
  // ---------------------------------------------------------------------------------------

  /** The dashboard's test of the `localStorage` entry: it has an expiry that has passed. */
  predicate LocalSessionExpired(entry: Option<Session>, now: int) {
    entry.Some? && entry.value.expiry.Some? && entry.value.expiry.value <= now
  }

  /** When `checkAuthentication` sends the visitor to the login page. */
  predicate Redirects(localEntry: Option<Session>, sessionEntry: Option<Session>, now: int) {
    (localEntry.None? && sessionEntry.None?) || LocalSessionExpired(localEntry, now)
  }

  /** `checkAuthentication()`: no session in either store, or an expired remembered one,
      sends the visitor to the login page; the expired one is removed. */
  method CheckAuthentication(now: int, local: SessionStore, session: SessionStore) returns (redirect: bool)
    requires local != session
    modifies local
    ensures redirect <==> Redirects(old(local.adminSession), session.adminSession, now)
    ensures local.adminSession == if LocalSessionExpired(old(local.adminSession), now) then None else old(local.adminSession)
  {
    var localEntry := local.adminSession;
    var sessionEntry := session.adminSession;
    if localEntry.None? && sessionEntry.None? {
      return true;
    }
    if localEntry.Some? {
      if localEntry.value.expiry.Some? && localEntry.value.expiry.value <= now {
        local.adminSession := None;
        return true;
      }
    }
    redirect := false;
  }

  /** For the sessions the login page writes, the dashboard admits exactly the visitors the
      login page welcomes back: a remembered session for thirty days, a tab session always. */
  lemma PagesAgreeOnStoredSessions(username: string, loginTime: int, now: int)
    ensures !Redirects(Some(RememberedSession(username, loginTime)), None, now)
      <==> LocalSessionLive(Some(RememberedSession(username, loginTime)), now)
    ensures !Redirects(None, Some(TabSession(username, loginTime)), now)
  {
  }

  /** A remembered session without an expiry, which the login page never writes, is admitted
      by the dashboard but removed by the login page. */
  lemma PagesDisagreeWithoutExpiry(entry: Session, now: int)
    requires entry.expiry.None?
    ensures !Redirects(Some(entry), None, now)
    ensures !LocalSessionLive(Some(entry), now)
  {
  }

  /** An expired remembered session sends the visitor away even when the tab holds a session;
      it is removed, so the next visit is admitted. */
  lemma ExpiredSessionRedirectsOnce(entry: Session, tab: Session, now: int)
    requires entry.expiry.Some? && entry.expiry.value <= now
    ensures Redirects(Some(entry), Some(tab), now)
    ensures !Redirects(None, Some(tab), now)
  {
  }

  /** The logout button: once confirmed, both session entries are removed. */
  method Logout(confirmed: bool, local: SessionStore, session: SessionStore)
    requires local != session
    modifies local, session
    ensures confirmed ==> local.adminSession.None? && session.adminSession.None?
    ensures !confirmed ==> local.adminSession == old(local.adminSession) && session.adminSession == old(session.adminSession)
  {
    if confirmed {
      local.adminSession := None;
      session.adminSession := None;
    }
  }
}
