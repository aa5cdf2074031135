/** The upload middleware used by the current routes
    (middleware/uploadMiddleware.js): disk storage under `uploads/` with
    the `fieldname-timestamp.ext` naming, and a file filter whose
    alternation is jpg|jpeg|png|webp|avif. */
module UploadMiddleware {
  import opened Http
  import opened Text
  import opened Upload

  /** The alternatives of `/jpg|jpeg|png|webp|avif/`. */
  const FileTypes: seq<string> := ["jpg", "jpeg", "png", "webp", "avif"]

  const Rejection := "Images only!"

  /** A part without a MIME type or without an extension never passes. */
  predicate CheckFileType(f: UploadedFile): (b: bool)
    ensures b ==> f.mimetype != "" && ExtName(f.originalname) != ""
  {
    assert "" !in FileTypes;
    FileTypeAllowed(FileTypes, f)
  }

  /** `upload.single('image')` with this middleware's filter. */
  function Receive(parts: seq<UploadedFile>): (r: Result<Option<UploadedFile>>)
    ensures r.Ok? && r.value.Some? ==> r.value.value in parts && CheckFileType(r.value.value)
    ensures r.Err? ==> r.failure == UploadError(Rejection) || r.failure.UnexpectedField?
  {
    ReceiveSingle(parts, FileTypes, Rejection)
  }

  /** Unfolds the alternation into its five literals. */
  lemma MatchesFileTypes(s: string)
    ensures MatchesAny(s, FileTypes) <==>
              Contains(s, "jpg") || Contains(s, "jpeg") || Contains(s, "png")
              || Contains(s, "webp") || Contains(s, "avif")
  {
    if Contains(s, "jpg") { assert Contains(s, FileTypes[0]); }
    if Contains(s, "jpeg") { assert Contains(s, FileTypes[1]); }
    if Contains(s, "png") { assert Contains(s, FileTypes[2]); }
    if Contains(s, "webp") { assert Contains(s, FileTypes[3]); }
    if Contains(s, "avif") { assert Contains(s, FileTypes[4]); }
  }

  /** A stored file is named after its field, the clock and its original
      extension, and lives under `uploads/`. */
  lemma StoredName(now: nat, originalname: string)
    ensures StoredFilename(FieldName, now, originalname)
            == "image-" + Decimal(now) + ExtName(originalname)
    ensures StoredPath(Posix, StoredFilename(FieldName, now, originalname))
            == Destination + StoredFilename(FieldName, now, originalname)
  {
    assert FieldName + "-" == "image-";
    var name := StoredFilename(FieldName, now, originalname);
    assert Posix.Separator() == '/';
    assert StoredPath(Posix, name) == "uploads" + ['/'] + name;
  }

  /** For a single `image` part, the outcome turns on the two tests alone. */
  lemma SinglePartOutcome(f: UploadedFile, lowered: string)
    requires f.fieldname == FieldName && ToLower(ExtName(f.originalname)) == lowered
    ensures Receive([f]) == if MatchesAny(lowered, FileTypes) && MatchesAny(f.mimetype, FileTypes)
                            then Ok(Some(f)) else Err(UploadError(Rejection))
  {
  }

  /** Any `.gif` file declared `image/gif` is refused: gif is not an
      alternative. */
  lemma GifRejected(f: UploadedFile)
    requires f.fieldname == FieldName && ExtName(f.originalname) == ".gif" && f.mimetype == "image/gif"
    ensures Receive([f]) == Err(UploadError(Rejection))
  {
    GifFacts();
    SinglePartOutcome(f, ".gif");
  }

  lemma GifFacts()
    ensures ToLower(".gif") == ".gif"
    ensures !MatchesAny(".gif", FileTypes) && !MatchesAny("image/gif", FileTypes)
  {
    NoFileType(".gif", 'j', 'p', 'w', 'a');
    NoFileType("image/gif", 'j', 'p', 'w', 'v');
  }

  /** A `.JPG` file passes the extension test (the extension is lower-cased)
      but `image/JPEG` fails the MIME test (the MIME type is not). */
  lemma UpperCaseMimeTypeRejected(f: UploadedFile)
    requires f.fieldname == FieldName && ExtName(f.originalname) == ".JPG" && f.mimetype == "image/JPEG"
    ensures MatchesAny(ToLower(ExtName(f.originalname)), FileTypes)
    ensures !MatchesAny(f.mimetype, FileTypes)
    ensures Receive([f]) == Err(UploadError(Rejection))
  {
    UpperCaseFacts();
    SinglePartOutcome(f, ".jpg");
  }

  lemma UpperCaseFacts()
    ensures ToLower(".JPG") == ".jpg"
    ensures MatchesAny(".jpg", FileTypes) && !MatchesAny("image/JPEG", FileTypes)
  {
    LowerJpg();
    JpgMatches();
    UpperMimeFails();
  }

  lemma JpgMatches()
    ensures MatchesAny(".jpg", FileTypes)
  {
    HasFileType(".jpg", "jpg", 1);
  }

  lemma UpperMimeFails()
    ensures !MatchesAny("image/JPEG", FileTypes)
  {
    NoFileType("image/JPEG", 'j', 'p', 'w', 'v');
  }

  lemma LowerJpg()
    ensures ToLower(".JPG") == ".jpg"
  {
    var r := ToLower(".JPG");
    assert r[1] == 'j' && r[2] == 'p' && r[3] == 'g';
  }

  /** Matching is unanchored: a `.pngx` file declared `image/png` passes. */
  lemma UnanchoredExtension(f: UploadedFile)
    requires f.fieldname == FieldName && ExtName(f.originalname) == ".pngx" && f.mimetype == "image/png"
    ensures Receive([f]) == Ok(Some(f))
  {
    UnanchoredFacts();
    SinglePartOutcome(f, ".pngx");
  }

  lemma UnanchoredFacts()
    ensures ToLower(".pngx") == ".pngx"
    ensures MatchesAny(".pngx", FileTypes) && MatchesAny("image/png", FileTypes)
  {
    HasFileType(".pngx", "png", 1);
    HasFileType("image/png", "png", 6);
  }

  /** A `.txt` file declared `text/plain` is refused with 'Images only!'. */
  lemma TextFileRejected(f: UploadedFile)
    requires f.fieldname == FieldName && ExtName(f.originalname) == ".txt" && f.mimetype == "text/plain"
    ensures Receive([f]) == Err(UploadError(Rejection))
  {
    TextFacts();
    SinglePartOutcome(f, ".txt");
  }

  lemma TextFacts()
    ensures ToLower(".txt") == ".txt"
    ensures !MatchesAny(".txt", FileTypes)
  {
    NoFileType(".txt", 'j', 'p', 'w', 'a');
  }

  lemma HasFileType(s: string, t: string, at: nat)
    requires t in FileTypes && OccursAt(s, t, at)
    ensures MatchesAny(s, FileTypes)
  {
    MatchesFileTypes(s);
  }

  /** None of the five literals occurs in `s` when `s` lacks the given
      characters of jpg/jpeg, png, webp and avif. */
  lemma NoFileType(s: string, j: char, p: char, w: char, a: char)
    requires j in "jpg" && j in "jpeg" && j !in s
    requires p in "png" && p !in s
    requires w in "webp" && w !in s
    requires a in "avif" && a !in s
    ensures !MatchesAny(s, FileTypes)
  {
    AbsentCharBlocks(s, "jpg", j);
    AbsentCharBlocks(s, "jpeg", j);
    AbsentCharBlocks(s, "png", p);
    AbsentCharBlocks(s, "webp", w);
    AbsentCharBlocks(s, "avif", a);
    MatchesFileTypes(s);
  }
}
