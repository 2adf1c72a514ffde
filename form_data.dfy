/** What the content routes do with a multipart form before they hand it to the store:
    comma-separated text fields become lists, and uploaded files become image entries that
    either replace the stored images or are appended to them. */
module FormData {
  import opened Wrappers
  import opened Strings
  import opened Http

  /** A file as the upload middleware reports it. */
  datatype UploadedFile = UploadedFile(
    fieldname: string, originalname: string, mimetype: string, path: string, filename: string, size: nat)

  /** An image entry of an announcement or an event. */
  datatype Image = Image(url: string, publicId: string, caption: string)

  /** A form field: a single text value, an array (a repeated field), or not sent. */
  datatype FormValue = Text(text: string) | Items(items: seq<string>) | Absent

  /** `if (typeof v === 'string') v = v.split(',')`: a text value becomes the list of its
      comma-separated pieces, which join back to it; anything else is left as it is. */
  function ParseList(v: FormValue): (r: FormValue)
    ensures !r.Text?
    ensures v.Text? ==> r.Items? && Join(r.items, ",") == v.text
    ensures v.Text? ==> |r.items| >= 1 && forall p :: p in r.items ==> ',' !in p
    ensures !v.Text? ==> r == v
  {
    match v
    case Text(s) =>
      JoinSplit(s, ',');
      SplitPiecesExcludeSeparator(s, ',');
      Items(Split(s, ','))
    case _ => v
  }

  /** A list of comma-free pieces survives being sent as one comma-joined text field. */
  lemma ParseListRoundTrip(items: seq<string>)
    requires |items| >= 1 && forall p :: p in items ==> ',' !in p
    ensures ParseList(Text(Join(items, ","))) == Items(items)
  {
    SplitJoin(items, ',');
  }

  /** `req.files.map(file => ({ url: file.path, publicId: file.filename, caption: file.originalname }))`. */
  function ImagesFromFiles(files: seq<UploadedFile>): (r: seq<Image>)
    ensures |r| == |files|
    ensures forall i :: 0 <= i < |files| ==>
      r[i] == Image(files[i].path, files[i].filename, files[i].originalname)
    decreases |files|
  {
    if |files| == 0 then []
    else [Image(files[0].path, files[0].filename, files[0].originalname)] + ImagesFromFiles(files[1..])
  }

  /** The `images` value an update sends: nothing without files; with files, the new images
      alone when `replaceImages` is the text 'true', else the stored images followed by them. */
  function MergeImages(stored: seq<Image>, files: seq<UploadedFile>, replaceImages: Option<string>)
    : (r: Option<seq<Image>>)
    ensures r.None? <==> |files| == 0
    ensures r.Some? && replaceImages == Some("true") ==> r.value == ImagesFromFiles(files)
    ensures r.Some? && replaceImages != Some("true") ==>
      |r.value| == |stored| + |files| && r.value[..|stored|] == stored
      && r.value[|stored|..] == ImagesFromFiles(files)
  {
    if |files| == 0 then None
    else if replaceImages == Some("true") then Some(ImagesFromFiles(files))
    else Some(stored + ImagesFromFiles(files))
  }

  /** The images the record holds after the update: a sent `images` value wins, otherwise
      the stored list stays. */
  function ImagesAfterUpdate(stored: seq<Image>, sent: Option<seq<Image>>, files: seq<UploadedFile>,
                             replaceImages: Option<string>): seq<Image>
  {
    match MergeImages(stored, files, replaceImages)
    case Some(images) => images
    case None => sent.GetOr(stored)
  }

  /** Uploading never loses a stored image unless replacement was asked for, and every
      uploaded file ends up as an image, after the stored ones. */
  lemma UploadKeepsOrReplaces(stored: seq<Image>, sent: Option<seq<Image>>, files: seq<UploadedFile>,
                              replaceImages: Option<string>)
    ensures |files| == 0 ==> ImagesAfterUpdate(stored, sent, files, replaceImages) == sent.GetOr(stored)
    ensures |files| > 0 && replaceImages == Some("true") ==>
      ImagesAfterUpdate(stored, sent, files, replaceImages) == ImagesFromFiles(files)
    ensures |files| > 0 && replaceImages != Some("true") ==>
      var r := ImagesAfterUpdate(stored, sent, files, replaceImages);
      (forall i :: 0 <= i < |stored| ==> r[i] == stored[i])
      && (forall i :: 0 <= i < |files| ==> r[|stored| + i].url == files[i].path)
  {
    if |files| > 0 && replaceImages != Some("true") {
      var r := ImagesAfterUpdate(stored, sent, files, replaceImages);
      forall i | 0 <= i < |files| ensures r[|stored| + i].url == files[i].path {
        assert r[|stored| + i] == r[|stored|..][i];
      }
    }
  }

  /** What the store does with a create or an update: accepts it, rejects it with the
      validators' messages (a `ValidationError`), or throws something else. */
  datatype StoreWrite = Accepted | Rejected(messages: seq<string>) | Crashed

  /** The `catch` block the content routes share: a validation error is answered with a 400
      carrying the messages joined by ", ", anything else with a 500. */
  function WriteAnswer(w: StoreWrite, success: Response): (r: Response)
    ensures r.Success() <==> w.Accepted? && success.Success()
    ensures w.Accepted? ==> r == success
    ensures w.Rejected? ==> r == Response(400, Join(w.messages, ", "))
    ensures w.Crashed? ==> r == ServerError("Server error")
  {
    match w
    case Accepted => success
    case Rejected(messages) => Response(400, Join(messages, ", "))
    case Crashed => ServerError("Server error")
  }
}
