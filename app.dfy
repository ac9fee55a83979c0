/**
 * The request-edge rules of the Express application: the multer upload filter
 * and file naming, the GraphQL `formatError` envelope and the fallback
 * error-handling middleware. JavaScript's `a || b` defaulting is written out:
 * a missing or zero number and a missing or empty string are falsy.
 */
module App {
  import opened Wrappers
  import opened IsoTime
  import Resolver

  // ---------------------------------------------------------------- uploads

  /** The part of a multer file object the rules look at. */
  datatype UploadedFile = UploadedFile(fieldname: string, originalname: string, mimetype: string)

  /** The arguments `fileFilter` passes to multer's callback `cb(error, accept)`. */
  datatype FilterCallback = FilterCallback(error: Option<string>, accept: bool)

  /** Where multer writes an accepted file, and under which name. */
  datatype StoredFile = StoredFile(destination: string, filename: string)

  const ImageMimeTypes: set<string> := {"image/png", "image/jpg", "image/jpeg"}

  /** The directory the disk storage writes to. */
  const ImagesDir := "images"

  /** The one form field `.single('image')` takes a file from. */
  const UploadField := "image"

  /** The message of the MulterError for a file the middleware does not expect. */
  const UnexpectedField := "Unexpected field"

  /** `fileFilter`: accept the three image types, silently skip everything else. */
  function FileFilter(file: UploadedFile): (cb: FilterCallback)
    ensures cb.error == None
    ensures cb.accept <==> file.mimetype in ImageMimeTypes
  {
    if file.mimetype == "image/png" || file.mimetype == "image/jpg" || file.mimetype == "image/jpeg"
    then FilterCallback(None, true)
    else FilterCallback(None, false)
  }

  /** The disk storage's `filename`: the original name, a dash, the ISO time of the upload. */
  function StoredFilename(originalname: string, now: Timestamp): (name: string)
    requires ValidTimestamp(now)
    ensures |name| == |originalname| + 1 + |IsoString(now)|
    ensures name[..|originalname|] == originalname && name[|originalname|] == '-'
    ensures name[|originalname| + 1..] == IsoString(now)
  {
    originalname + "-" + IsoString(now)
  }

  /** Recovers the original name and upload time from a stored filename. */
  function SplitStoredFilename(name: string): Option<(string, Timestamp)>
  {
    if |name| >= 25 && name[|name| - 25] == '-' && ParseIso(name[|name| - 24..]).Some? then
      Some((name[..|name| - 25], ParseIso(name[|name| - 24..]).value))
    else if |name| >= 28 && name[|name| - 28] == '-' && ParseIso(name[|name| - 27..]).Some? then
      Some((name[..|name| - 28], ParseIso(name[|name| - 27..]).value))
    else None
  }

  /** A stored filename determines the original name and the upload time. */
  lemma SplitOfStoredFilename(originalname: string, now: Timestamp)
    requires ValidTimestamp(now)
    ensures SplitStoredFilename(StoredFilename(originalname, now)) == Some((originalname, now))
  {
    var iso := IsoString(now);
    var name := StoredFilename(originalname, now);
    ParseIsoOfIsoString(now);
    if |iso| == 24 {
      assert name[|name| - 24..] == iso;
      assert name[..|name| - 25] == originalname;
    } else {
      assert name[|name| - 27..] == iso;
      assert name[..|name| - 28] == originalname;
      // The separator of a four-digit year would sit on a digit of this year.
      assert name[|name| - 25] == iso[2];
      assert IsDigit(YearText(now.year)[1..][1]);
    }
  }

  /** Two uploads get the same filename only with the same original name at the same millisecond. */
  lemma StoredFilenameInjective(name1: string, now1: Timestamp, name2: string, now2: Timestamp)
    requires ValidTimestamp(now1) && ValidTimestamp(now2)
    requires StoredFilename(name1, now1) == StoredFilename(name2, now2)
    ensures name1 == name2 && now1 == now2
  {
    SplitOfStoredFilename(name1, now1);
    SplitOfStoredFilename(name2, now2);
  }

  /**
   * The file parts from `parts` on, once `taken` says whether the one slot of
   * `.single('image')` is used and `kept` holds the file stored so far. A part
   * under another field, or any part after the slot is used, aborts the upload
   * with "Unexpected field" before the filter sees it; otherwise the part takes
   * the slot (even if the filter then skips it).
   */
  function SingleFrom(parts: seq<UploadedFile>, now: Timestamp, taken: bool, kept: Option<StoredFile>): (r: Result<Option<StoredFile>, string>)
    requires ValidTimestamp(now)
    ensures parts == [] ==> r == Success(kept)
    ensures parts != [] && taken ==> r == Failure(UnexpectedField)
    decreases |parts|
  {
    if parts == [] then Success(kept)
    else if parts[0].fieldname != UploadField || taken then Failure(UnexpectedField)
    else
      var file := parts[0];
      var stored := if FileFilter(file).accept then Some(StoredFile(ImagesDir, StoredFilename(file.originalname, now))) else None;
      SingleFrom(parts[1..], now, true, stored)
  }

  /**
   * `multer({ storage, fileFilter }).single('image')` over the request's file
   * parts, in order. The request fails with "Unexpected field" unless it holds
   * at most one file and that under `image`; an accepted file is written to
   * `images/` under its stored name, and a skipped one leaves the request
   * without a file and without an error.
   */
  function Upload(parts: seq<UploadedFile>, now: Timestamp): (r: Result<Option<StoredFile>, string>)
    requires ValidTimestamp(now)
    ensures r.Failure? <==> |parts| > 1 || (|parts| == 1 && parts[0].fieldname != UploadField)
    ensures r.Failure? ==> r.error == UnexpectedField
    ensures parts == [] ==> r == Success(None)
    ensures r.Success? && r.value.Some? <==>
              |parts| == 1 && parts[0].fieldname == UploadField && parts[0].mimetype in ImageMimeTypes
    ensures r.Success? && r.value.Some? ==>
              r.value.value == StoredFile(ImagesDir, StoredFilename(parts[0].originalname, now)) &&
              r.value.value.destination == ImagesDir &&
              SplitStoredFilename(r.value.value.filename) == Some((parts[0].originalname, now))
  {
    if parts == [] then SingleFrom(parts, now, false, None)
    else
      SplitOfStoredFilename(parts[0].originalname, now);
      SingleFrom(parts, now, false, None)
  }

  // ----------------------------------------------------------------- errors

  /** `a || b` for a number that may be undefined: undefined and 0 are falsy. */
  function OrNumber(a: Option<int>, b: int): (r: int)
    ensures a.Some? && a.value != 0 ==> r == a.value
    ensures a.None? || a.value == 0 ==> r == b
  {
    if a.Some? && a.value != 0 then a.value else b
  }

  /** `a || b` for a string: the empty string is falsy. */
  function OrText(a: string, b: string): (r: string)
    ensures a != "" ==> r == a
    ensures a == "" ==> r == b
  {
    if a != "" then a else b
  }

  /** An error thrown by a resolver or a middleware, with the optional fields the code reads. */
  datatype AppError<D> = AppError(message: string, code: Option<int>, statusCode: Option<int>, data: Option<D>)

  /** A GraphQL error as `formatError` receives it: its message and the error it wraps, if any. */
  datatype GraphQLError<D> = GraphQLError(message: string, originalError: Option<AppError<D>>)

  /** What `formatError` returns: the error itself, or the envelope `{message, status, data}`. */
  datatype Formatted<D> = Unchanged(error: GraphQLError<D>) | Envelope(message: string, status: int, data: Option<D>)

  const DefaultMessage := "An error occurred"
  const InternalStatus := 500

  /** `formatError`. */
  function FormatError<D>(err: GraphQLError<D>): (r: Formatted<D>)
    ensures err.originalError.None? <==> r.Unchanged?
    ensures r.Unchanged? ==> r.error == err
    ensures r.Envelope? ==>
              var original := err.originalError.value;
              r.data == original.data &&
              r.message != "" && (err.message != "" ==> r.message == err.message) &&
              (err.message == "" ==> r.message == DefaultMessage) &&
              r.status != 0 &&
              (original.code.Some? && original.code.value != 0 ==> r.status == original.code.value) &&
              (original.code.None? || original.code.value == 0 ==> r.status == InternalStatus)
  {
    if err.originalError.None? then Unchanged(err)
    else
      var data := err.originalError.value.data;
      var message := OrText(err.message, DefaultMessage);
      var code := OrNumber(err.originalError.value.code, InternalStatus);
      Envelope(message, code, data)
  }

  /** How a thrown error reaches `formatError`: wrapped, with the thrown error's message. */
  function Located<D>(e: AppError<D>): GraphQLError<D>
  {
    GraphQLError(e.message, Some(e))
  }

  /** The duplicate registration error reaches the client as a 500 envelope with its message. */
  lemma DuplicateUserEnvelope<D>()
    ensures FormatError(Located(AppError<D>.AppError(Resolver.UserExists, None, None, None)))
         == Envelope(Resolver.UserExists, InternalStatus, None)
  {
  }

  /** The JSON body of the fallback handler; an undefined field is left out of the JSON. */
  datatype ErrorBody<D> = ErrorBody(message: Option<string>, data: Option<D>)

  datatype ErrorResponse<D> = ErrorResponse(status: int, body: ErrorBody<D>)

  /**
   * The fallback error middleware: status `statusCode || 500`, body only
   * `{message, data}`. An Error's message is a string, so it is always present.
   */
  function HandleError<D>(error: AppError<D>): (r: ErrorResponse<D>)
    ensures r.status != 0
    ensures error.statusCode.Some? && error.statusCode.value != 0 ==> r.status == error.statusCode.value
    ensures error.statusCode.None? || error.statusCode.value == 0 ==> r.status == InternalStatus
    ensures r.body.message == Some(error.message) && r.body.data == error.data
  {
    ErrorResponse(OrNumber(error.statusCode, InternalStatus), ErrorBody(Some(error.message), error.data))
  }
}
