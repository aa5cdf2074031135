/** What both upload variants share: the multipart parser configured with
    `upload.single('image')` and a file filter, and the disk storage that
    names a stored file `fieldname-timestamp.ext` under `uploads/`. The two
    variants differ only in their list of accepted types and their
    responses (modules UploadMiddleware, LegacyUpload and UploadRoute). */
module Upload {
  import opened Http
  import opened Text

  /** The only file field `single('image')` accepts. */
  const FieldName := "image"

  /** The directory disk storage writes to. */
  const Destination := "uploads/"

  /** A file part as the parser describes it to the filter. */
  datatype UploadedFile = UploadedFile(fieldname: string, originalname: string, mimetype: string)

  /** The file filter `checkFileType`: the lower-cased extension of the
      original name and the (not lower-cased) declared MIME type must each
      match the unanchored alternation `types`. */
  predicate FileTypeAllowed(types: seq<string>, f: UploadedFile): (b: bool)
    ensures b && "" !in types ==> f.mimetype != "" && ExtName(f.originalname) != ""
  {
    MatchesAny(ToLower(ExtName(f.originalname)), types) && MatchesAny(f.mimetype, types)
  }

  /** The parser and filter together, over the file parts in the order they
      arrive: a part under any other field name, or a second `image` part,
      aborts with "Unexpected field" (checked before the filter); a part the
      filter refuses aborts with the filter's message; otherwise at most one
      file comes through. */
  function ReceiveSingle(parts: seq<UploadedFile>, types: seq<string>, rejection: string)
    : (r: Result<Option<UploadedFile>>)
    ensures r == Ok(None) <==> parts == []
    ensures r.Ok? && r.value.Some? <==>
              |parts| == 1 && parts[0].fieldname == FieldName && FileTypeAllowed(types, parts[0])
    ensures r.Ok? && r.value.Some? ==> r.value.value == parts[0]
    ensures r == Err(UploadError(rejection)) <==>
              parts != [] && parts[0].fieldname == FieldName && !FileTypeAllowed(types, parts[0])
    ensures parts != [] && parts[0].fieldname != FieldName ==> r == Err(UnexpectedField(parts[0].fieldname))
    ensures (|parts| > 1 && parts[0].fieldname == FieldName && FileTypeAllowed(types, parts[0])
             ==> r == Err(UnexpectedField(parts[1].fieldname)))
  {
    if parts == [] then Ok(None)
    else if parts[0].fieldname != FieldName then Err(UnexpectedField(parts[0].fieldname))
    else if !FileTypeAllowed(types, parts[0]) then Err(UploadError(rejection))
    else if |parts| > 1 then Err(UnexpectedField(parts[1].fieldname))
    else Ok(Some(parts[0]))
  }

  /** The storage's `filename` callback: `${fieldname}-${Date.now()}${extname}`. */
  function StoredFilename(fieldname: string, now: nat, originalname: string): (name: string)
    ensures |name| > |fieldname| + 1 && name[..|fieldname|] == fieldname && name[|fieldname|] == '-'
    ensures |name| >= |ExtName(originalname)| && name[|name| - |ExtName(originalname)|..] == ExtName(originalname)
  {
    fieldname + "-" + Decimal(now) + ExtName(originalname)
  }

  /** Reads a stored filename back into field name, timestamp and extension. */
  function ParseStoredFilename(name: string): Option<(string, nat, string)> {
    match IndexOf(name, "-")
    case None => None
    case Some(i) =>
      var rest := name[i + 1..];
      var k := DigitsPrefix(rest);
      Some((name[..i], ParseDecimal(rest[..k]), rest[k..]))
  }

  /** The stored filename loses nothing: field name, timestamp and extension
      can be read back as long as the field name has no '-' in it. */
  lemma StoredFilenameRoundTrip(fieldname: string, now: nat, originalname: string)
    requires '-' !in fieldname
    ensures ParseStoredFilename(StoredFilename(fieldname, now, originalname))
            == Some((fieldname, now, ExtName(originalname)))
  {
    var d, e := Decimal(now), ExtName(originalname);
    assert StoredFilename(fieldname, now, originalname) == fieldname + "-" + (d + e);
    assert e == [] || e[0] == '.';
    ParseComposed(fieldname, d, e);
    DecimalRoundTrip(now);
  }

  lemma ParseComposed(fieldname: string, d: string, e: string)
    requires '-' !in fieldname
    requires |d| >= 1 && AllDigits(d)
    requires e == [] || e[0] == '.'
    ensures ParseStoredFilename(fieldname + "-" + (d + e)) == Some((fieldname, ParseDecimal(d), e))
  {
    var name := fieldname + "-" + (d + e);
    FirstDash(fieldname, d + e);
    var rest := name[|fieldname| + 1..];
    assert name[..|fieldname|] == fieldname;
    assert rest == d + e;
    DigitsPrefixOfAppend(d, e);
    assert rest[..|d|] == d;
    assert rest[|d|..] == e;
  }

  lemma FirstDash(f: string, tail: string)
    requires '-' !in f
    ensures IndexOf(f + "-" + tail, "-") == Some(|f|)
  {
    var name := f + "-" + tail;
    assert name[|f|..|f| + 1] == "-";
    assert OccursAt(name, "-", |f|);
    forall j | 0 <= j < |f| ensures !OccursAt(name, "-", j) {
      assert name[j..j + 1] == [f[j]];
    }
  }

  /** The path separator of the platform the server runs on. */
  datatype Platform = Posix | Windows {
    function Separator(): char {
      match this
      case Posix => '/'
      case Windows => '\\'
    }
  }

  /** `req.file.path`: the destination joined with the filename by the
      platform's path module. */
  function StoredPath(platform: Platform, filename: string): (p: string)
    ensures |p| == |"uploads/"| + |filename|
    ensures p[..7] == "uploads" && p[7] == platform.Separator() && p[8..] == filename
  {
    "uploads" + [platform.Separator()] + filename
  }

  /** A filename the storage composes for the `image` field holds no path
      separator when the original extension holds no backslash. */
  lemma StoredFilenameHasNoSeparator(now: nat, originalname: string)
    requires '\\' !in ExtName(originalname)
    ensures '/' !in StoredFilename(FieldName, now, originalname)
    ensures '\\' !in StoredFilename(FieldName, now, originalname)
  {
    var d := Decimal(now);
    var e := ExtName(originalname);
    assert StoredFilename(FieldName, now, originalname) == "image-" + d + e;
    forall i | 0 <= i < |d| ensures d[i] != '/' && d[i] != '\\' {
      assert IsDigit(d[i]);
    }
    assert '/' !in "image-" && '\\' !in "image-";
    assert '/' !in e;
  }
}
