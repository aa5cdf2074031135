/** The upload route of backend/routes/uploadRoutes.js: its own disk
    storage (same naming as the middleware), a file filter whose
    alternation `jpe?g|png|gif|webp` reads as jpg|jpeg|png|gif|webp, and a
    plain-text response carrying the stored path. */
module LegacyUpload {
  import opened Http
  import opened Text
  import opened Upload
  import UploadMiddleware

  const FileTypes: seq<string> := ["jpg", "jpeg", "png", "gif", "webp"]

  const Rejection := "Images only! (JPEG, PNG, GIF, WebP)"
  const NoFile := "File upload failed."

  /** A part without a MIME type or without an extension never passes. */
  predicate CheckFileType(f: UploadedFile): (b: bool)
    ensures b ==> f.mimetype != "" && ExtName(f.originalname) != ""
  {
    assert "" !in FileTypes;
    FileTypeAllowed(FileTypes, f)
  }

  function Receive(parts: seq<UploadedFile>): (r: Result<Option<UploadedFile>>)
    ensures r.Ok? && r.value.Some? ==> r.value.value in parts && CheckFileType(r.value.value)
    ensures r.Err? ==> r.failure == UploadError(Rejection) || r.failure.UnexpectedField?
  {
    ReceiveSingle(parts, FileTypes, Rejection)
  }

  datatype Response = Response(status: nat, body: string)

  /** The whole request: the parser's error, or 200 with "/" and the stored
      path, or 400 when no file came through. */
  function Post(parts: seq<UploadedFile>, platform: Platform, now: nat): (r: Result<Response>)
    ensures r.Err? <==> Receive(parts).Err?
    ensures r.Err? ==> r.failure == Receive(parts).failure
    ensures parts == [] ==> r == Ok(Response(400, NoFile))
    ensures Receive(parts).Ok? && Receive(parts).value.Some? ==> r.Ok? && r.value.status == 200
    ensures r.Ok? && r.value.status == 200 ==>
              |parts| == 1 && CheckFileType(parts[0])
              && r.value.body == "/" + StoredPath(platform, StoredFilename(FieldName, now, parts[0].originalname))
  {
    match Receive(parts)
    case Err(e) => Err(e)
    case Ok(None) => Ok(Response(400, NoFile))
    case Ok(Some(f)) => Ok(Response(200, "/" + StoredPath(platform, StoredFilename(f.fieldname, now, f.originalname))))
  }

  /** The alternation unfolded into its five literals. */
  lemma MatchesFileTypes(s: string)
    ensures MatchesAny(s, FileTypes) <==>
              Contains(s, "jpg") || Contains(s, "jpeg") || Contains(s, "png")
              || Contains(s, "gif") || Contains(s, "webp")
  {
    if Contains(s, "jpg") { assert Contains(s, FileTypes[0]); }
    if Contains(s, "jpeg") { assert Contains(s, FileTypes[1]); }
    if Contains(s, "png") { assert Contains(s, FileTypes[2]); }
    if Contains(s, "gif") { assert Contains(s, FileTypes[3]); }
    if Contains(s, "webp") { assert Contains(s, FileTypes[4]); }
  }

  /** The two filters decide alike on any text mentioning neither gif
      nor avif. */
  lemma SameAlternativesAwayFromGifAndAvif(s: string)
    requires !Contains(s, "gif") && !Contains(s, "avif")
    ensures MatchesAny(s, FileTypes) <==> MatchesAny(s, UploadMiddleware.FileTypes)
  {
    MatchesFileTypes(s);
    UploadMiddleware.MatchesFileTypes(s);
  }

  /** Hence the two filters accept the same files, except where gif or
      avif is involved. */
  lemma FiltersAgreeAwayFromGifAndAvif(f: UploadedFile)
    requires !Contains(ToLower(ExtName(f.originalname)), "gif") && !Contains(ToLower(ExtName(f.originalname)), "avif")
    requires !Contains(f.mimetype, "gif") && !Contains(f.mimetype, "avif")
    ensures CheckFileType(f) <==> UploadMiddleware.CheckFileType(f)
  {
    SameAlternativesAwayFromGifAndAvif(ToLower(ExtName(f.originalname)));
    SameAlternativesAwayFromGifAndAvif(f.mimetype);
  }

  /** For a single `image` part, the outcome turns on the two tests alone. */
  lemma SinglePartOutcome(f: UploadedFile, lowered: string)
    requires f.fieldname == FieldName && ToLower(ExtName(f.originalname)) == lowered
    ensures Receive([f]) == if MatchesAny(lowered, FileTypes) && MatchesAny(f.mimetype, FileTypes)
                            then Ok(Some(f)) else Err(UploadError(Rejection))
  {
  }

  /** A `.gif` file declared `image/gif` is accepted here, unlike by the
      upload middleware. */
  lemma GifAccepted(f: UploadedFile)
    requires f.fieldname == FieldName && ExtName(f.originalname) == ".gif" && f.mimetype == "image/gif"
    ensures Receive([f]) == Ok(Some(f))
    ensures UploadMiddleware.Receive([f]).Err?
  {
    GifFacts();
    SinglePartOutcome(f, ".gif");
    UploadMiddleware.GifRejected(f);
  }

  lemma GifFacts()
    ensures ToLower(".gif") == ".gif"
    ensures MatchesAny(".gif", FileTypes) && MatchesAny("image/gif", FileTypes)
  {
    HasFileType(".gif", "gif", 1);
    HasFileType("image/gif", "gif", 6);
  }

  /** An `.avif` file declared `image/avif` is refused here, though the
      upload middleware accepts it. */
  lemma AvifRejected(f: UploadedFile)
    requires f.fieldname == FieldName && ExtName(f.originalname) == ".avif" && f.mimetype == "image/avif"
    ensures Receive([f]) == Err(UploadError(Rejection))
    ensures UploadMiddleware.Receive([f]) == Ok(Some(f))
  {
    AvifFacts();
    SinglePartOutcome(f, ".avif");
    UploadMiddleware.SinglePartOutcome(f, ".avif");
  }

  lemma AvifFacts()
    ensures ToLower(".avif") == ".avif"
    ensures !MatchesAny(".avif", FileTypes)
    ensures MatchesAny(".avif", UploadMiddleware.FileTypes) && MatchesAny("image/avif", UploadMiddleware.FileTypes)
  {
    NoFileType(".avif", 'j', 'p', 'g', 'w');
    UploadMiddleware.HasFileType(".avif", "avif", 1);
    UploadMiddleware.HasFileType("image/avif", "avif", 6);
  }

  /** Only the `image` field is processed: a file under another field name
      aborts the request. */
  lemma OnlyImageField(f: UploadedFile, platform: Platform, now: nat)
    requires f.fieldname != FieldName
    ensures Post([f], platform, now) == Err(UnexpectedField(f.fieldname))
  {
  }

  /** On POSIX the success body is `/uploads/` and the stored filename. */
  lemma SuccessBodyOnPosix(f: UploadedFile, now: nat)
    requires Receive([f]) == Ok(Some(f))
    ensures Post([f], Posix, now) == Ok(Response(200, "/uploads/" + StoredFilename(FieldName, now, f.originalname)))
  {
    var name := StoredFilename(FieldName, now, f.originalname);
    assert f.fieldname == FieldName;
    assert Post([f], Posix, now) == Ok(Response(200, "/" + StoredPath(Posix, name)));
    PosixPath(name);
  }

  lemma PosixPath(name: string)
    ensures "/" + StoredPath(Posix, name) == "/uploads/" + name
  {
    assert Posix.Separator() == '/';
  }

  lemma HasFileType(s: string, t: string, at: nat)
    requires t in FileTypes && OccursAt(s, t, at)
    ensures MatchesAny(s, FileTypes)
  {
    MatchesFileTypes(s);
  }

  /** None of the five literals occurs in `s` when `s` lacks the given
      characters of jpg/jpeg, png, gif and webp. */
  lemma NoFileType(s: string, j: char, p: char, g: char, w: char)
    requires j in "jpg" && j in "jpeg" && j !in s
    requires p in "png" && p !in s
    requires g in "gif" && g !in s
    requires w in "webp" && w !in s
    ensures !MatchesAny(s, FileTypes)
  {
    AbsentCharBlocks(s, "jpg", j);
    AbsentCharBlocks(s, "jpeg", j);
    AbsentCharBlocks(s, "png", p);
    AbsentCharBlocks(s, "gif", g);
    AbsentCharBlocks(s, "webp", w);
    MatchesFileTypes(s);
  }
}
