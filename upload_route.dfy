/** The `/api/posts/upload` route: attaches one uploaded image to a post.
    The display order is whatever number the client sent; the route neither
    derives it from the images already stored nor checks it for duplicates,
    and it sets no limit on how many images a post may have. */
module UploadRoute {

  import opened Common
  import opened Text
  import opened Schema
  import opened Store

  /** The uploaded file; only the extension of its name matters here
      (`path.extname(file.name)`, including the dot, or "" when there is
      none). Its bytes go to the file system, which is not modelled. */
  datatype UploadFile = UploadFile(extension: string)

  /** Where an exception is thrown, if anywhere: reading the form data (before
      the fields are checked), or saving the file or inserting the row. */
  datatype UploadFault = NoFault | FormFault | SaveFault

  datatype UploadResponse = Uploaded(imageUrl: string) | UploadFailed(status: nat, error: string)

  const UploadsPrefix := "/uploads/posts/"

  /** The public URL of the saved file: the uploads folder, then the post id,
      a dash, the millisecond timestamp and the file's extension. */
  function UploadedImageUrl(postId: string, now: nat, extension: string): string
  {
    UploadsPrefix + postId + "-" + Decimal(now) + extension
  }

  /** The URL is the uploads folder followed by the post id, a dash and the
      decimal digits of the timestamp, then the extension. */
  lemma UploadedImageUrlShape(postId: string, now: nat, extension: string)
    ensures var url := UploadedImageUrl(postId, now, extension);
      var stamp := url[|UploadsPrefix| + |postId| + 1..|url| - |extension|];
      && url[..|UploadsPrefix|] == UploadsPrefix
      && url[|UploadsPrefix|..|UploadsPrefix| + |postId|] == postId
      && url[|UploadsPrefix| + |postId|] == '-'
      && AllDigits(stamp) && stamp == Decimal(now) && ParseDecimal(stamp) == now
      && url[|url| - |extension|..] == extension
  {
    var url := UploadedImageUrl(postId, now, extension);
    assert url == UploadsPrefix + postId + "-" + Decimal(now) + extension;
    ParseDecimalOfDecimal(now);
  }

  /** What `path.extname` returns: nothing, or a dot and what follows it. */
  predicate IsExtension(extension: string)
  {
    extension == "" || extension[0] == '.'
  }

  /** Two uploads for the same post at different milliseconds get different
      URLs, whatever the extensions of the two files. */
  lemma UploadedImageUrlDistinct(postId: string, now1: nat, extension1: string, now2: nat, extension2: string)
    requires now1 != now2 && IsExtension(extension1) && IsExtension(extension2)
    ensures UploadedImageUrl(postId, now1, extension1) != UploadedImageUrl(postId, now2, extension2)
  {
    var head := UploadsPrefix + postId + "-";
    var tail1, tail2 := Decimal(now1) + extension1, Decimal(now2) + extension2;
    assert UploadedImageUrl(postId, now1, extension1) == head + tail1;
    assert UploadedImageUrl(postId, now2, extension2) == head + tail2;
    if head + tail1 == head + tail2 {
      assert tail1 == (head + tail1)[|head|..] && tail2 == (head + tail2)[|head|..];
      DigitRunSplit(Decimal(now1), extension1, Decimal(now2), extension2);
      DecimalInjective(now1, now2);
    }
  }

  /** `POST`: a session user id is required; then the form must carry a file
      and a non-empty post id. On success one image row is appended with the
      request's post id, the built URL and the client's order, and the
      response carries that same URL. `now` is `Date.now()`; `order` is the
      parsed `order` field, which the guard does not look at. */
  method Upload(db: Database, session: Session, file: Option<UploadFile>, postId: Option<string>,
                order: int, now: nat, fault: UploadFault)
    returns (resp: UploadResponse)
    requires db.Valid()
    modifies db
    ensures db.Valid()
    ensures CallerId(session).None? ==>
              resp == UploadFailed(401, "Not authenticated") && db.Snapshot() == old(db.Snapshot())
    ensures CallerId(session).Some? && fault == FormFault ==>
              resp == UploadFailed(500, "Failed to upload image") && db.Snapshot() == old(db.Snapshot())
    ensures CallerId(session).Some? && fault != FormFault && (file.None? || !Truthy(postId)) ==>
              resp == UploadFailed(400, "Missing required fields") && db.Snapshot() == old(db.Snapshot())
    ensures CallerId(session).Some? && fault == SaveFault && file.Some? && Truthy(postId) ==>
              resp == UploadFailed(500, "Failed to upload image") && db.Snapshot() == old(db.Snapshot())
    ensures CallerId(session).Some? && fault == NoFault && file.Some? && Truthy(postId) ==>
              var row := PostImage(postId.value, UploadedImageUrl(postId.value, now, file.value.extension), order);
              && resp == Uploaded(row.imageUrl)
              && db.Snapshot() == old(db.Snapshot()).(images := old(db.images) + [row])
  {
    if CallerId(session).None? {
      return UploadFailed(401, "Not authenticated");
    }
    if fault == FormFault {
      return UploadFailed(500, "Failed to upload image");
    }
    if file.None? || !Truthy(postId) {
      return UploadFailed(400, "Missing required fields");
    }
    var imageUrl := UploadedImageUrl(postId.value, now, file.value.extension);
    if fault == SaveFault {
      return UploadFailed(500, "Failed to upload image");
    }
    db.InsertImages([PostImage(postId.value, imageUrl, order)]);
    resp := Uploaded(imageUrl);
  }

  /** A client that sends the same order twice (a retry, or two images sent
      with one number) ends up with two image rows of the post carrying that
      order: nothing in the route prevents duplicate orders. */
  method RepeatedOrderIsStored(db: Database, session: Session, file: UploadFile, postId: string,
                               order: int, now1: nat, now2: nat)
    requires db.Valid() && CallerId(session).Some? && postId != ""
    modifies db
    ensures db.Valid()
    ensures |db.images| == |old(db.images)| + 2
    ensures var a := db.images[|db.images| - 2];
      var b := db.images[|db.images| - 1];
      a.postId == b.postId == postId && a.order == b.order == order
  {
    var first := Upload(db, session, Some(file), Some(postId), order, now1, NoFault);
    var second := Upload(db, session, Some(file), Some(postId), order, now2, NoFault);
  }

  /** The file name is not unique within one millisecond: two successful
      uploads for one post at the same `Date.now()` with one file extension
      leave two image rows pointing at the same URL, and the second file
      replaces the first on disk. */
  method SameMillisecondUploadsShareUrl(db: Database, session: Session, file: UploadFile, postId: string,
                                        order1: int, order2: int, now: nat)
    requires db.Valid() && CallerId(session).Some? && postId != ""
    modifies db
    ensures db.Valid()
    ensures |db.images| == |old(db.images)| + 2
    ensures var a := db.images[|db.images| - 2];
      var b := db.images[|db.images| - 1];
      a.postId == b.postId == postId && a.imageUrl == b.imageUrl == UploadedImageUrl(postId, now, file.extension)
  {
    var first := Upload(db, session, Some(file), Some(postId), order1, now, NoFault);
    var second := Upload(db, session, Some(file), Some(postId), order2, now, NoFault);
  }
}
