/** The upload route of routes/uploadRoutes.js: the upload middleware's
    single `image` file, then a JSON answer whose image URL is the stored
    path with backslashes turned into slashes and cut down to the part from
    `uploads/` on. */
module UploadRoute {
  import opened Http
  import opened Text
  import opened Upload
  import UploadMiddleware

  const Uploaded := "Image uploaded successfully"
  const NoImage := "No image file provided"
  const Marker := "uploads/"

  /** The URL the handler answers with for a stored path: with `/` for
      every `\`, `/uploads/` and the piece after the first `uploads/` when
      that piece is non-empty, else `/` and the whole path. */
  function ImagePath(path: string): (r: string)
    ensures |r| > 0 && r[0] == '/'
    ensures '\\' !in r
    ensures !Contains(ReplaceChar(path, '\\', '/'), Marker) ==> r == "/" + ReplaceChar(path, '\\', '/')
    ensures var piece := SecondPiece(ReplaceChar(path, '\\', '/'), Marker);
            piece.Some? && piece.value != "" ==> r == "/" + Marker + piece.value
    ensures var piece := SecondPiece(ReplaceChar(path, '\\', '/'), Marker);
            (piece.None? || piece.value == "") ==> r == "/" + ReplaceChar(path, '\\', '/')
  {
    var fixed := ReplaceChar(path, '\\', '/');
    var piece := SecondPiece(fixed, Marker);
    if piece.Some? && piece.value != "" then
      assert piece.value <= fixed[IndexOf(fixed, Marker).value + |Marker|..];
      assert forall i :: 0 <= i < |piece.value| ==> piece.value[i] == fixed[IndexOf(fixed, Marker).value + |Marker| + i];
      "/" + Marker + piece.value
    else
      "/" + fixed
  }

  /** The JSON body: the message, and the image URL on success. */
  datatype Response = Response(status: nat, message: string, image: Option<string>)

  /** The whole request: a refused upload is passed on as the
      middleware's error; otherwise 200 with the URL, or 400 when no file
      came. */
  function Post(parts: seq<UploadedFile>, platform: Platform, now: nat): (r: Result<Response>)
    ensures r.Err? <==> UploadMiddleware.Receive(parts).Err?
    ensures r.Err? ==> r.failure == UploadMiddleware.Receive(parts).failure
    ensures parts == [] ==> r == Ok(Response(400, NoImage, None))
    ensures (UploadMiddleware.Receive(parts).Ok? && UploadMiddleware.Receive(parts).value.Some?
             ==> r.Ok? && r.value.status == 200)
    ensures r.Ok? ==> (r.value.status == 200 <==> r.value.image.Some?)
    ensures r.Ok? && r.value.status == 200 ==>
              |parts| == 1 && UploadMiddleware.CheckFileType(parts[0])
              && r.value.image.value == ImagePath(StoredPath(platform, StoredFilename(FieldName, now, parts[0].originalname)))
  {
    match UploadMiddleware.Receive(parts)
    case Err(e) => Err(e)
    case Ok(None) => Ok(Response(400, NoImage, None))
    case Ok(Some(f)) =>
      Ok(Response(200, Uploaded, Some(ImagePath(StoredPath(platform, StoredFilename(f.fieldname, now, f.originalname))))))
  }

  /** Whatever separator the platform joins with, a stored filename free of
      separators comes back as `/uploads/` and that filename. */
  lemma NormalisesStoredPath(platform: Platform, filename: string)
    requires filename != "" && '/' !in filename && '\\' !in filename
    ensures ImagePath(StoredPath(platform, filename)) == "/uploads/" + filename
  {
    FixedStoredPath(platform, filename);
    MarkedImagePath(StoredPath(platform, filename), filename);
  }

  /** A path that slashes to `uploads/` and a slash-free name gives
      `/uploads/` and that name. */
  lemma MarkedImagePath(path: string, filename: string)
    requires filename != "" && '/' !in filename
    requires ReplaceChar(path, '\\', '/') == Marker + filename
    ensures ImagePath(path) == "/uploads/" + filename
  {
    PieceAfterLeadingMarker(filename);
    assert SecondPiece(ReplaceChar(path, '\\', '/'), Marker) == Some(filename);
    assert "/" + Marker + filename == "/uploads/" + filename;
  }

  /** When the text starts with `uploads/` and holds no other slash, the
      piece after the marker is the rest of the text. */
  lemma PieceAfterLeadingMarker(filename: string)
    requires '/' !in filename
    ensures SecondPiece(Marker + filename, Marker) == Some(filename)
  {
    var fixed := Marker + filename;
    assert OccursAt(fixed, Marker, 0) by {
      assert fixed[0..|Marker|] == Marker;
    }
    assert IndexOf(fixed, Marker) == Some(0);
    assert fixed[|Marker|..] == filename;
    AbsentCharBlocks(filename, Marker, '/');
    var piece := SecondPiece(fixed, Marker);
    assert piece.Some?;
    assert !OccursAt(filename, Marker, |piece.value|);
  }

  /** With no backslash in the filename, slashing the stored path gives
      `uploads/` and the filename on either platform. */
  lemma FixedStoredPath(platform: Platform, filename: string)
    requires '\\' !in filename
    ensures ReplaceChar(StoredPath(platform, filename), '\\', '/') == Marker + filename
  {
    var path := StoredPath(platform, filename);
    var fixed := ReplaceChar(path, '\\', '/');
    assert |fixed| == |Marker + filename|;
    forall i | 0 <= i < |fixed| ensures fixed[i] == (Marker + filename)[i] {
      if i >= 8 {
        assert path[i] == filename[i - 8];
      } else {
        assert path[i] == ("uploads" + [platform.Separator()])[i];
      }
    }
  }

  /** The example of a Windows path: `uploads\image-1.jpg` becomes
      `/uploads/image-1.jpg`. */
  lemma WindowsExample(path: string)
    requires path == "uploads\\image-1.jpg"
    ensures ImagePath(path) == "/uploads/image-1.jpg"
  {
    WindowsExampleFacts();
    NormalisesStoredPath(Windows, "image-1.jpg");
  }

  lemma WindowsExampleFacts()
    ensures StoredPath(Windows, "image-1.jpg") == "uploads\\image-1.jpg"
    ensures '/' !in "image-1.jpg" && '\\' !in "image-1.jpg"
    ensures "/uploads/" + "image-1.jpg" == "/uploads/image-1.jpg"
  {
    assert Windows.Separator() == '\\';
  }

  /** An accepted upload answers 200 with `/uploads/` and the stored
      filename, on either platform. */
  lemma AcceptedUploadUrl(f: UploadedFile, platform: Platform, now: nat)
    requires UploadMiddleware.Receive([f]) == Ok(Some(f))
    requires '\\' !in ExtName(f.originalname)
    ensures Post([f], platform, now)
            == Ok(Response(200, Uploaded, Some("/uploads/" + StoredFilename(FieldName, now, f.originalname))))
  {
    assert f.fieldname == FieldName;
    var name := StoredFilename(FieldName, now, f.originalname);
    StoredFilenameHasNoSeparator(now, f.originalname);
    NormalisesStoredPath(platform, name);
  }
}
