/** The upload middleware: the MIME allow-list of `fileFilter`, the extension allow-list and
    the folder choice of the storage `params`, the size and count limits, and the mapping of
    upload errors to answers in `handleUploadError` (the copy exported from
    `utils/cloudinary.js` is the same function and is modelled once).

    Multer's own machinery is reduced to the order in which it reports the first problem of
    an upload; the storage service is not modelled. */
module Upload {
  import opened Wrappers
  import opened Strings
  import opened Http
  import opened FormData

  // ---------------------------------------------------------------------------------------
  // Allow-lists
  // ---------------------------------------------------------------------------------------

  const AllowedMimes: seq<string> := [
    "image/jpeg", "image/jpg", "image/png", "image/gif", "application/pdf", "application/msword",
    "application/vnd.openxmlformats-officedocument.wordprocessingml.document"]

  const AllowedExtensions: seq<string> := [".jpg", ".jpeg", ".png", ".gif", ".pdf", ".doc", ".docx"]

  /** The rejection of `fileFilter`, written in the pieces the proofs below look at: the
      words "file type", and the only capital F (of "PDF"), which a comma follows. */
  const InvalidFileType := "Invalid " + "file type" + ". Only images, PD" + "F," + " and Word documents are allowed."

  /** An error raised while a request's files are received: a `MulterError` with its `code`,
      or a plain `Error`. */
  datatype UploadError = MulterError(code: string, message: string) | PlainError(message: string)

  /** `fileFilter`: a file is accepted exactly when its MIME type is one of the seven. */
  function FileFilter(file: UploadedFile): (e: Option<UploadError>)
    ensures e.None? <==> file.mimetype in AllowedMimes
    ensures e.Some? ==> e.value == PlainError(InvalidFileType)
  {
    if file.mimetype in AllowedMimes then None else Some(PlainError(InvalidFileType))
  }

  /** The index of the last '.' in `s`. */
  function LastDot(s: string): (k: Option<nat>)
    ensures k.Some? ==> k.value < |s| && s[k.value] == '.' && forall i :: k.value < i < |s| ==> s[i] != '.'
    ensures k.None? ==> forall i :: 0 <= i < |s| ==> s[i] != '.'
    decreases |s|
  {
    if |s| == 0 then None
    else if s[|s| - 1] == '.' then Some(|s| - 1)
    else LastDot(s[..|s| - 1])
  }

  /** `path.extname(name)` for a file name without a '/': from the last '.' to the end, except
      that a name whose only dot opens it (".env"), and the name "..", have none. */
  function Extname(name: string): (ext: string)
    ensures ext == "" || (ext[0] == '.' && '.' !in ext[1..])
    ensures ext != "" ==> |ext| < |name| && name[|name| - |ext|..] == ext
    ensures LastDot(name).None? ==> ext == ""
    ensures ext == "" <==> LastDot(name).None? || LastDot(name).value == 0 || name == ".."
  {
    match LastDot(name)
    case None => ""
    case Some(k) =>
      if k == 0 || name == ".." then ""
      else
        NoDotAfterLast(name, k);
        name[k..]
  }

  lemma NoDotAfterLast(name: string, k: nat)
    requires k < |name| && forall i :: k < i < |name| ==> name[i] != '.'
    ensures '.' !in name[k..][1..]
  {
    forall j | 0 <= j < |name[k..][1..]| ensures name[k..][1..][j] != '.' {
      assert name[k..][1..][j] == name[k + 1 + j];
    }
  }

  function ExtensionNotAllowed(ext: string): string {
    "File type " + ext + " is not allowed"
  }

  /** The extension check of the storage `params`: the lower-cased extension must be one of
      the seven. */
  function ExtensionCheck(file: UploadedFile): (e: Option<UploadError>)
    ensures e.None? <==> ToLower(Extname(file.originalname)) in AllowedExtensions
    ensures e.Some? ==> e.value == PlainError(ExtensionNotAllowed(ToLower(Extname(file.originalname))))
  {
    var ext := ToLower(Extname(file.originalname));
    if ext in AllowedExtensions then None else Some(PlainError(ExtensionNotAllowed(ext)))
  }

  /** Names in any letter case pass when their extension does. */
  lemma UpperCaseExtensionAllowed(base: string)
    requires '.' !in base && |base| > 0
    ensures ToLower(Extname(base + ".PDF")) == ".pdf"
  {
    var name := base + ".PDF";
    assert name[|base|] == '.';
    assert forall i :: |base| < i < |name| ==> name[i] != '.';
    assert forall i :: 0 <= i < |base| ==> name[i] == base[i];
    assert name[|base|..] == ".PDF";
    assert ToLower(".PDF") == ".pdf";
  }

  // ---------------------------------------------------------------------------------------
  // Folder
  // ---------------------------------------------------------------------------------------

  const DefaultFolder := "soet-university"

  /** The if-chain of `params`: the first word the path contains picks the folder. */
  function FolderFor(path: string): (folder: string)
    ensures Contains(path, "staff") ==> folder == "soet-university/staff"
    ensures !Contains(path, "staff") && Contains(path, "alumni") ==> folder == "soet-university/alumni"
    ensures (!Contains(path, "staff") && !Contains(path, "alumni") && !Contains(path, "events")
             && !Contains(path, "announcements") && !Contains(path, "contact")) ==> folder == DefaultFolder
    ensures !Contains(path, "staff") && !Contains(path, "alumni") && Contains(path, "events") ==>
      folder == "soet-university/events"
    ensures (!Contains(path, "staff") && !Contains(path, "alumni") && !Contains(path, "events")
             && Contains(path, "announcements")) ==> folder == "soet-university/announcements"
    ensures (!Contains(path, "staff") && !Contains(path, "alumni") && !Contains(path, "events")
             && !Contains(path, "announcements") && Contains(path, "contact")) ==> folder == "soet-university/contacts"
  {
    if Contains(path, "staff") then "soet-university/staff"
    else if Contains(path, "alumni") then "soet-university/alumni"
    else if Contains(path, "events") then "soet-university/events"
    else if Contains(path, "announcements") then "soet-university/announcements"
    else if Contains(path, "contact") then "soet-university/contacts"
    else DefaultFolder
  }

  /** The folder as written: `params` tests `req.route.path`, the path of the route inside its
      router, which never names the router's mount point. */
  function FolderAsWritten(routePath: string): string {
    FolderFor(routePath)
  }

  /** The route paths, inside their routers, of every route that accepts files. */
  const UploadRoutePaths := ["/", "/:id", "/single", "/multiple"]

  /** Every route that accepts files is declared with one of those paths, so every upload
      lands in the default folder. */
  lemma EveryUploadInDefaultFolder(routePath: string)
    requires routePath in UploadRoutePaths
    ensures FolderAsWritten(routePath) == DefaultFolder
  {
    NoFolderWord(routePath);
  }

  /** A path without an 'a', a 'c', an 'f' or a 'v' names none of the folders. */
  lemma NoFolderWord(path: string)
    requires 'a' !in path && 'c' !in path && 'f' !in path && 'v' !in path
    ensures FolderFor(path) == DefaultFolder
  {
    NotContainedByChar(path, "staff", 3);
    NotContainedByChar(path, "alumni", 0);
    NotContainedByChar(path, "events", 1);
    NotContainedByChar(path, "announcements", 0);
    NotContainedByChar(path, "contact", 0);
  }

  /** A word with a character the string lacks does not occur in it. */
  lemma NotContainedByChar(s: string, w: string, k: nat)
    requires k < |w| && w[k] !in s
    ensures !Contains(s, w)
  {
    forall i: nat ensures !OccursAt(s, w, i) {
      if i + |w| <= |s| {
        assert s[i..i + |w|][k] == s[i + k];
      }
    }
  }

  /** The folder with the mount point taken into account: `req.baseUrl + req.route.path`. */
  function Folder(baseUrl: string, routePath: string): string {
    FolderFor(baseUrl + routePath)
  }

  /** The route paths, inside their routers, of the content routes that accept files (the
      create and update routes of staff, alumni, events and announcements, and the contact
      form); the upload router's own routes are `/single` and `/multiple`. */
  const ContentUploadPaths := ["/", "/:id"]
  const UploadRouterPaths := ["/single", "/multiple"]

  /** With the mount point, the uploads of each content router land in its folder. */
  lemma UploadFoldersByRouter(routePath: string)
    requires routePath in ContentUploadPaths
    ensures Folder("/api/staff", routePath) == "soet-university/staff"
    ensures Folder("/api/alumni", routePath) == "soet-university/alumni"
    ensures Folder("/api/events", routePath) == "soet-university/events"
    ensures Folder("/api/announcements", routePath) == "soet-university/announcements"
    ensures Folder("/api/contact", routePath) == "soet-university/contacts"
  {
    ContainsAt("/api/staff" + routePath, "staff", 5);
    AlumniFolder(routePath);
    EventsFolder(routePath);
    AnnouncementsFolder(routePath);
    ContactFolder(routePath);
  }

  lemma AlumniFolder(routePath: string)
    requires routePath in ContentUploadPaths
    ensures Folder("/api/alumni", routePath) == "soet-university/alumni"
  {
    var path := "/api/alumni" + routePath;
    NotContainedByChar(path, "staff", 3);
    ContainsAt(path, "alumni", 5);
  }

  lemma EventsFolder(routePath: string)
    requires routePath in ContentUploadPaths
    ensures Folder("/api/events", routePath) == "soet-university/events"
  {
    var path := "/api/events" + routePath;
    NotContainedByChar(path, "staff", 3);
    NotContainedByChar(path, "alumni", 1);
    ContainsAt(path, "events", 5);
  }

  lemma AnnouncementsFolder(routePath: string)
    requires routePath in ContentUploadPaths
    ensures Folder("/api/announcements", routePath) == "soet-university/announcements"
  {
    var path := "/api/announcements" + routePath;
    NotContainedByChar(path, "staff", 3);
    NotContainedByChar(path, "alumni", 1);
    NotContainedByChar(path, "events", 1);
    ContainsAt(path, "announcements", 5);
  }

  lemma ContactFolder(routePath: string)
    requires routePath in ContentUploadPaths
    ensures Folder("/api/contact", routePath) == "soet-university/contacts"
  {
    var path := "/api/contact" + routePath;
    NotContainedByChar(path, "staff", 3);
    NotContainedByChar(path, "alumni", 1);
    NotContainedByChar(path, "events", 1);
    NotContainedByChar(path, "announcements", 4);
    ContainsAt(path, "contact", 5);
  }

  /** The upload router's mount point names no folder, so its uploads keep the default one. */
  lemma UploadRouterKeepsDefaultFolder(routePath: string)
    requires routePath in UploadRouterPaths
    ensures Folder("/api/upload", routePath) == DefaultFolder
  {
    var path := "/api/upload" + routePath;
    if routePath == "/single" {
      UploadRouterPathFolder(path, 3);
    } else {
      UploadRouterPathFolder(path, 4);
    }
  }

  /** A path with no 'f', 'v' or 'c', lacking the character of "alumni" at `k`, names no
      folder. */
  lemma UploadRouterPathFolder(path: string, k: nat)
    requires 'f' !in path && 'v' !in path && 'c' !in path && k < 6 && "alumni"[k] !in path
    ensures FolderFor(path) == DefaultFolder
  {
    NotContainedByChar(path, "staff", 3);
    NotContainedByChar(path, "alumni", k);
    NotContainedByChar(path, "events", 1);
    NotContainedByChar(path, "announcements", 6);
    NotContainedByChar(path, "contact", 0);
  }

  lemma ContainsAt(s: string, w: string, i: nat)
    requires i + |w| <= |s| && s[i..i + |w|] == w
    ensures Contains(s, w)
  {
    assert OccursAt(s, w, i);
  }

  // ---------------------------------------------------------------------------------------
  // Limits and the first error
  // ---------------------------------------------------------------------------------------

  const MaxFileSize := 10 * 1024 * 1024
  const MaxFiles := 5

  /** The problem with the file at position `index` of an upload to the field `field` that
      accepts `maxCount` files, in the order multer meets them: the request-wide count, the
      field's name and count, the MIME filter, the extension check, and the size. */
  function FileProblem(file: UploadedFile, index: nat, field: string, maxCount: nat): (e: Option<UploadError>)
    ensures e.None? <==>
      (index < MaxFiles && file.fieldname == field && index < maxCount && file.mimetype in AllowedMimes
       && ToLower(Extname(file.originalname)) in AllowedExtensions && file.size <= MaxFileSize)
    ensures index < MaxFiles && (file.fieldname != field || index >= maxCount) ==>
      e == Some(MulterError("LIMIT_UNEXPECTED_FILE", "Unexpected field"))
  {
    if index >= MaxFiles then Some(MulterError("LIMIT_FILE_COUNT", "Too many files"))
    else if file.fieldname != field || index >= maxCount then
      Some(MulterError("LIMIT_UNEXPECTED_FILE", "Unexpected field"))
    else if FileFilter(file).Some? then FileFilter(file)
    else if ExtensionCheck(file).Some? then ExtensionCheck(file)
    else if file.size > MaxFileSize then Some(MulterError("LIMIT_FILE_SIZE", "File too large"))
    else None
  }

  /** The first problem of an upload, files taken in order from position `from`. */
  function UploadProblem(files: seq<UploadedFile>, field: string, maxCount: nat, from: nat)
    : (e: Option<UploadError>)
    ensures e.None? <==> forall i :: 0 <= i < |files| ==> FileProblem(files[i], from + i, field, maxCount).None?
    decreases |files|
  {
    if |files| == 0 then None
    else if FileProblem(files[0], from, field, maxCount).Some? then FileProblem(files[0], from, field, maxCount)
    else
      var rest := UploadProblem(files[1..], field, maxCount, from + 1);
      forall i | 1 <= i < |files|
        ensures FileProblem(files[i], from + i, field, maxCount)
             == FileProblem(files[1..][i - 1], from + 1 + (i - 1), field, maxCount)
      {
        assert files[i] == files[1..][i - 1];
      }
      rest
  }

  /** An upload that passes holds at most five files, all sent under the route's field, and
      never more than the field takes. */
  lemma AcceptedUploadWithinLimits(files: seq<UploadedFile>, field: string, maxCount: nat)
    requires UploadProblem(files, field, maxCount, 0).None?
    ensures |files| <= MaxFiles && |files| <= maxCount
    ensures forall i :: 0 <= i < |files| ==>
      files[i].fieldname == field && files[i].size <= MaxFileSize && files[i].mimetype in AllowedMimes
  {
    if |files| > 0 {
      assert FileProblem(files[|files| - 1], |files| - 1, field, maxCount).None?;
    }
  }

  // ---------------------------------------------------------------------------------------
  // handleUploadError
  // ---------------------------------------------------------------------------------------

  /** What an error middleware does: answer, or call `next(error)`. */
  datatype Handling = Answer(response: Response) | Forward(error: UploadError)

  const FileTooLarge := Response(400, "File size too large. Maximum size is 10MB.")
  const TooManyFiles := Response(400, "Too many files. Maximum 5 files allowed.")
  const UnexpectedField := Response(400, "Unexpected field name for file upload.")

  /** A multer error with one of the three codes the handler answers by name. */
  predicate NamedLimit(e: UploadError)
  {
    e.MulterError? && e.code in {"LIMIT_FILE_SIZE", "LIMIT_FILE_COUNT", "LIMIT_UNEXPECTED_FILE"}
  }

  /** `handleUploadError` as written: the three multer codes, then a case-sensitive search of
      the message for "File type". */
  function HandleUploadErrorAsWritten(e: UploadError): (h: Handling)
    ensures e.MulterError? && e.code == "LIMIT_FILE_SIZE" ==> h == Answer(FileTooLarge)
    ensures e.MulterError? && e.code == "LIMIT_FILE_COUNT" ==> h == Answer(TooManyFiles)
    ensures e.MulterError? && e.code == "LIMIT_UNEXPECTED_FILE" ==> h == Answer(UnexpectedField)
    ensures h.Forward? ==> h.error == e && !Contains(e.message, "File type")
    ensures !NamedLimit(e) && Contains(e.message, "File type") ==> h == Answer(Response(400, e.message))
    ensures !NamedLimit(e) && !Contains(e.message, "File type") ==> h == Forward(e)
  {
    if e.MulterError? && e.code == "LIMIT_FILE_SIZE" then Answer(FileTooLarge)
    else if e.MulterError? && e.code == "LIMIT_FILE_COUNT" then Answer(TooManyFiles)
    else if e.MulterError? && e.code == "LIMIT_UNEXPECTED_FILE" then Answer(UnexpectedField)
    else if Contains(e.message, "File type") then Answer(Response(400, e.message))
    else Forward(e)
  }

  /** The rejection of `fileFilter` says "file type" in lower case, so the handler as written
      forwards it to the application's 500 handler instead of answering 400; the extension
      error is answered with its 400. */
  lemma MimeRejectionForwardedAsWritten(ext: string)
    ensures HandleUploadErrorAsWritten(PlainError(InvalidFileType)) == Forward(PlainError(InvalidFileType))
    ensures HandleUploadErrorAsWritten(PlainError(ExtensionNotAllowed(ext)))
      == Answer(Response(400, ExtensionNotAllowed(ext)))
  {
    MimeRejectionForwarded(InvalidFileType);
    ContainsAt(ExtensionNotAllowed(ext), "File type", 0);
  }

  lemma MimeRejectionForwarded(m: string)
    requires m == InvalidFileType
    ensures HandleUploadErrorAsWritten(PlainError(m)) == Forward(PlainError(m))
  {
    MimeRejectionLacksFileType(m);
  }

  /** The only capital F of the rejection is the one of "PDF", followed by a comma. */
  lemma MimeRejectionLacksFileType(m: string)
    requires m == InvalidFileType
    ensures !Contains(m, "File type")
  {
    OnlyStartFollowedBy("Invalid " + "file type" + ". Only images, PD", ',', " and Word documents are allowed.", "File type");
  }

  /** A word whose first character occurs only once in the string, followed there by a
      character other than the word's second, does not occur in it. */
  lemma OnlyStartFollowedBy(a: string, c: char, b: string, w: string)
    requires |w| >= 2 && w[0] !in a && w[0] !in b && c != w[0] && c != w[1]
    ensures !Contains(a + [w[0], c] + b, w)
  {
    var s := a + [w[0], c] + b;
    forall i: nat ensures !OccursAt(s, w, i) {
      if i + |w| <= |s| {
        assert s[i..i + |w|][0] == s[i] && s[i..i + |w|][1] == s[i + 1];
        if i < |a| {
          assert s[i] == a[i] && a[i] in a;
        } else if i == |a| {
          assert s[i + 1] == c;
        } else if i == |a| + 1 {
          assert s[i] == c;
        } else {
          assert s[i] == b[i - |a| - 2] && b[i - |a| - 2] in b;
        }
      }
    }
  }

  /** `handleUploadError` with the search made case-insensitive, so that both file checks are
      answered with a 400. */
  function HandleUploadError(e: UploadError): (h: Handling)
    ensures e.MulterError? && e.code == "LIMIT_FILE_SIZE" ==> h == Answer(FileTooLarge)
    ensures e.MulterError? && e.code == "LIMIT_FILE_COUNT" ==> h == Answer(TooManyFiles)
    ensures e.MulterError? && e.code == "LIMIT_UNEXPECTED_FILE" ==> h == Answer(UnexpectedField)
    ensures h.Forward? ==> h.error == e && !Contains(ToLower(e.message), "file type")
    ensures !NamedLimit(e) && Contains(ToLower(e.message), "file type") ==> h == Answer(Response(400, e.message))
    ensures !NamedLimit(e) && !Contains(ToLower(e.message), "file type") ==> h == Forward(e)
  {
    if e.MulterError? && e.code == "LIMIT_FILE_SIZE" then Answer(FileTooLarge)
    else if e.MulterError? && e.code == "LIMIT_FILE_COUNT" then Answer(TooManyFiles)
    else if e.MulterError? && e.code == "LIMIT_UNEXPECTED_FILE" then Answer(UnexpectedField)
    else if Contains(ToLower(e.message), "file type") then Answer(Response(400, e.message))
    else Forward(e)
  }

  /** Under the corrected handler every problem the allow-lists and limits report is answered
      with a 400. */
  lemma EveryUploadProblemAnswered(file: UploadedFile, index: nat, field: string, maxCount: nat)
    requires FileProblem(file, index, field, maxCount).Some?
    ensures HandleUploadError(FileProblem(file, index, field, maxCount).value).Answer?
    ensures HandleUploadError(FileProblem(file, index, field, maxCount).value).response.status == 400
  {
    var e := FileProblem(file, index, field, maxCount).value;
    if e.PlainError? {
      if FileFilter(file).Some? {
        MimeRejectionAnswered(e.message);
      } else {
        ExtensionRejectionAnswered(ToLower(Extname(file.originalname)), e.message);
      }
    }
  }

  lemma MimeRejectionAnswered(m: string)
    requires m == InvalidFileType
    ensures HandleUploadError(PlainError(m)) == Answer(Response(400, m))
  {
    MentionsFileType(m, "file type", 8);
  }

  lemma ExtensionRejectionAnswered(ext: string, m: string)
    requires m == ExtensionNotAllowed(ext)
    ensures HandleUploadError(PlainError(m)) == Answer(Response(400, m))
  {
    MentionsFileType(m, "file type", 0);
  }

  /** A message holding `w`, in any letter case, at `i` holds it once lower-cased. */
  lemma MentionsFileType(s: string, w: string, i: nat)
    requires i + |w| <= |s| && forall j :: 0 <= j < |w| ==> ToLowerChar(s[i + j]) == w[j]
    ensures Contains(ToLower(s), w)
  {
    var lower := ToLower(s);
    assert |lower| == |s|;
    assert forall j :: 0 <= j < |w| ==> lower[i + j] == w[j];
    assert lower[i..i + |w|] == w;
    assert OccursAt(lower, w, i);
  }

  /** The application's error handler, which a forwarded error reaches. */
  function ApplicationError(e: UploadError, production: bool): (r: Response)
    ensures r.status == 500
    ensures r.message == (if production then "Something went wrong!" else e.message)
  {
    Response(500, if production then "Something went wrong!" else e.message)
  }
}
