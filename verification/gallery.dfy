/** A user's tank-image gallery: the `user_tank_images` table with the `tank-images` storage
    bucket, and the functions `upload-image` (add one image, at most five per user) and
    `manage-images` (list a user's images newest first, delete one). */
module Gallery {
  import opened Wrappers
  import opened Text
  import opened Http
  import opened Uploads

  datatype ImageRow = ImageRow(
    id: string,
    owner: UserId,
    filename: string,
    originalFilename: string,
    filePath: string,
    description: string,
    fileSize: nat,
    contentType: string,
    uploadedAt: int)

  /** The table rows, in insertion order, and the paths of the stored objects. */
  datatype Gallery = Gallery(rows: seq<ImageRow>, objects: set<string>)

  const MaxImages: nat := 5
  const MaxUploadSize: nat := 10 * Mebibyte

  const TooManyImages := "Maximum of 5 images allowed " + "per user"
  const UploadedMessage := "Image uploaded successfully"
  const DeletedMessage := "Image deleted successfully"
  const IdRequired := "Image ID required"
  const ImageNotFound := "Image not found"
  const MethodNotAllowed := "Method not allowed"

  /** How the gallery functions word an image refused by `CheckImage`. */
  function ImageErrorMessage(e: ImageError): string {
    match e
    case NoFile => "No image file provided"
    case BadType => "Invalid file type. Only JPEG, " + "PNG, and WebP images are " + "allowed."
    case TooLarge => "File too large. Maximum size " + "is 10MB."
  }

  /** The rows of user `u`, in table order. */
  function Owned(rows: seq<ImageRow>, u: UserId): (r: seq<ImageRow>)
    ensures |r| <= |rows|
    ensures forall k :: 0 <= k < |r| ==> r[k].owner == u && r[k] in rows
    ensures forall x :: x in rows && x.owner == u ==> x in r
  {
    if |rows| == 0 then []
    else
      var rest := Owned(rows[1..], u);
      assert forall x :: x in rows[1..] ==> x in rows;
      if rows[0].owner == u then [rows[0]] + rest else rest
  }

  function CountFor(rows: seq<ImageRow>, u: UserId): nat {
    |Owned(rows, u)|
  }

  /** No user has more images than the limit. */
  ghost predicate WithinCap(g: Gallery) {
    forall u :: CountFor(g.rows, u) <= MaxImages
  }

  lemma {:induction false} OwnedAppend(rows: seq<ImageRow>, x: ImageRow, u: UserId)
    ensures Owned(rows + [x], u) == Owned(rows, u) + (if x.owner == u then [x] else [])
  {
    if |rows| > 0 {
      var t := rows + [x];
      assert t[0] == rows[0] && t[1..] == rows[1..] + [x];
      OwnedAppend(rows[1..], x, u);
      assert Owned(t, u) == (if rows[0].owner == u then [rows[0]] else []) + Owned(t[1..], u);
      assert Owned(rows, u) == (if rows[0].owner == u then [rows[0]] else []) + Owned(rows[1..], u);
    } else {
      assert rows + [x] == [x];
    }
  }

  /** `.select().eq('id', id).eq('user_id', u).single()`: the row, when exactly one matches. */
  function Lookup(rows: seq<ImageRow>, id: string, u: UserId): (r: Option<ImageRow>)
    ensures r.Some? ==> r.value in rows && r.value.id == id && r.value.owner == u
    ensures (forall x :: x in rows ==> !(x.id == id && x.owner == u)) ==> r.None?
    ensures |Owned(Matching(rows, id), u)| == 1 ==> r.Some?
  {
    var matches := Owned(Matching(rows, id), u);
    if |matches| == 1 then Some(matches[0]) else None
  }

  /** The rows with a given id, in table order. */
  function Matching(rows: seq<ImageRow>, id: string): (r: seq<ImageRow>)
    ensures forall k :: 0 <= k < |r| ==> r[k].id == id && r[k] in rows
    ensures forall x :: x in rows && x.id == id ==> x in r
  {
    if |rows| == 0 then []
    else
      var rest := Matching(rows[1..], id);
      assert forall x :: x in rows[1..] ==> x in rows;
      if rows[0].id == id then [rows[0]] + rest else rest
  }

  /** The table after `.delete().eq('id', id).eq('user_id', u)`. */
  function DeleteRows(rows: seq<ImageRow>, id: string, u: UserId): (r: seq<ImageRow>)
    ensures forall x :: x in r <==> x in rows && !(x.id == id && x.owner == u)
  {
    if |rows| == 0 then []
    else
      var rest := DeleteRows(rows[1..], id, u);
      if rows[0].id == id && rows[0].owner == u then rest else [rows[0]] + rest
  }

  /** Deleting never adds to anyone's images and leaves other users' images as they were. */
  lemma {:induction false} DeleteRowsOwned(rows: seq<ImageRow>, id: string, u: UserId, v: UserId)
    ensures CountFor(DeleteRows(rows, id, u), v) <= CountFor(rows, v)
    ensures v != u ==> Owned(DeleteRows(rows, id, u), v) == Owned(rows, v)
  {
    if |rows| > 0 {
      DeleteRowsOwned(rows[1..], id, u, v);
    }
  }

  /** The form fields `upload-image` reads. */
  datatype UploadForm = UploadForm(image: FormValue, description: FormValue)

  /** `formData.get('description') as string || ''`. */
  function DescriptionOf(v: FormValue): string {
    if v.TextValue? then v.text else ""
  }

  /** What the database and the storage service answer during an upload. */
  datatype UploadEnv = UploadEnv(countError: Option<string>, uploadError: Option<string>, insertError: Option<string>)

  /** What storage reports when asked to create an object that exists (`upsert: false`). Its
      wording is not part of the model. */
  const ObjectExists := "object already exists"

  datatype Uploaded = Uploaded(message: string, image: ImageRow)

  /** The storage path of an upload: `tank-images/<user>/<uuid>.<extension>`. */
  function UploadPath(u: UserId, uuid: string, name: string): string {
    "tank-images/" + u + "/" + uuid + "." + Extension(name)
  }

  /** The function `upload-image`. `form` is `None` when the body is not form data; `uuid`,
      `newId` and `now` are the random file name, the row id and the time the database
      assigns. */
  function UploadImage(verb: Method, header: Option<string>, verify: string -> Option<UserId>,
                       form: Option<UploadForm>, env: UploadEnv, uuid: string, newId: string,
                       now: int, g: Gallery): (r: (Reply<Uploaded>, Gallery))
    ensures !r.0.Ok? ==> r.1 == g
    ensures r.0.Ok? ==>
      var u := r.0.body.image.owner;
      && form.Some? && form.value.image.FileValue?
      && CountFor(g.rows, u) < MaxImages
      && r.0.body.message == UploadedMessage
      && r.0.body.image.filePath == UploadPath(u, uuid, form.value.image.file.name)
      && r.0.body.image.filePath !in g.objects
      && r.1 == Gallery(g.rows + [r.0.body.image], g.objects + {r.0.body.image.filePath})
    ensures r.0.Err? && r.0.status == 400 && r.0.message == TooManyImages ==>
      Authenticate(header, verify).Success? && CountFor(g.rows, Authenticate(header, verify).value) >= MaxImages
    ensures verb != Options && Authenticate(header, verify).Failure? ==> r.0 == Err(401, Authenticate(header, verify).error)
    ensures (verb != Options && Authenticate(header, verify).Success? && env.countError.None?
             && CountFor(g.rows, Authenticate(header, verify).value) >= MaxImages) ==> r.0 == Err(400, TooManyImages)
    ensures (verb != Options && Authenticate(header, verify).Success? && env.countError.None?
             && CountFor(g.rows, Authenticate(header, verify).value) < MaxImages
             && form.Some? && CheckImage(form.value.image, MaxUploadSize).Failure?) ==>
              r.0 == Err(400, ImageErrorMessage(CheckImage(form.value.image, MaxUploadSize).error))
    ensures r.0.Ok? ==>
      var x := r.0.body.image;
      && Authenticate(header, verify) == Success(x.owner)
      && CheckImage(form.value.image, MaxUploadSize) == Success(form.value.image.file)
      && x.id == newId && x.uploadedAt == now
      && x.originalFilename == form.value.image.file.name && x.fileSize == form.value.image.file.size
      && x.contentType == form.value.image.file.mime && x.description == DescriptionOf(form.value.description)
    ensures (verb != Options && Authenticate(header, verify).Success? && env.countError.None?
             && CountFor(g.rows, Authenticate(header, verify).value) < MaxImages
             && form.Some? && CheckImage(form.value.image, MaxUploadSize).Success?
             && env.uploadError.None? && env.insertError.None?
             && UploadPath(Authenticate(header, verify).value, uuid, form.value.image.file.name) !in g.objects) ==> r.0.Ok?
  {
    if verb == Options then (Preflight, g)
    else
      match Authenticate(header, verify)
      case Failure(m) => (Err(401, m), g)
      case Success(u) =>
        if env.countError.Some? then (Err(500, "Database error: " + env.countError.value), g)
        else if CountFor(g.rows, u) >= MaxImages then (Err(400, TooManyImages), g)
        else if form.None? then (Err(500, RuntimeError), g)
        else
          match CheckImage(form.value.image, MaxUploadSize)
          case Failure(e) => (Err(400, ImageErrorMessage(e)), g)
          case Success(file) =>
            var fileName := uuid + "." + Extension(file.name);
            var path := UploadPath(u, uuid, file.name);
            if env.uploadError.Some? then (Err(500, "Upload error: " + env.uploadError.value), g)
            else if path in g.objects then (Err(500, "Upload error: " + ObjectExists), g)
            else if env.insertError.Some? then
              // the stored object is removed again before the error is reported
              (Err(500, "Database error: " + env.insertError.value), g)
            else
              var row := ImageRow(newId, u, fileName, file.name, path,
                                  DescriptionOf(form.value.description), file.size, file.mime, now);
              (Ok(Uploaded(UploadedMessage, row)), Gallery(g.rows + [row], g.objects + {path}))
  }

  /** Uploading never takes a user past five images. */
  lemma UploadKeepsCap(verb: Method, header: Option<string>, verify: string -> Option<UserId>,
                       form: Option<UploadForm>, env: UploadEnv, uuid: string, newId: string,
                       now: int, g: Gallery)
    requires WithinCap(g)
    ensures WithinCap(UploadImage(verb, header, verify, form, env, uuid, newId, now, g).1)
  {
    var r := UploadImage(verb, header, verify, form, env, uuid, newId, now, g);
    if r.0.Ok? {
      var x := r.0.body.image;
      assert r.1.rows == g.rows + [x];
      assert CountFor(g.rows, x.owner) < MaxImages;
      forall v ensures CountFor(r.1.rows, v) <= MaxImages {
        assert CountFor(g.rows, v) <= MaxImages;
        OwnedAppend(g.rows, x, v);
      }
    }
  }

  /** An image in a listing: the selected columns and a signed URL, or `null`. */
  datatype Listed = Listed(
    id: string,
    filename: string,
    originalFilename: string,
    description: string,
    uploadedAt: int,
    fileSize: nat,
    filePath: string,
    url: Option<string>)

  predicate NewestFirst(rows: seq<ImageRow>) {
    forall i, j :: 0 <= i < j < |rows| ==> rows[i].uploadedAt >= rows[j].uploadedAt
  }

  /** Putting a row no older than any of a newest-first list in front keeps it newest first. */
  lemma NewestFirstCons(a: ImageRow, rest: seq<ImageRow>)
    requires NewestFirst(rest)
    requires forall j :: 0 <= j < |rest| ==> a.uploadedAt >= rest[j].uploadedAt
    ensures NewestFirst([a] + rest)
  {
    var s := [a] + rest;
    forall i, j | 0 <= i < j < |s| ensures s[i].uploadedAt >= s[j].uploadedAt {
      if i > 0 {
        assert s[i] == rest[i - 1] && s[j] == rest[j - 1];
      } else {
        assert s[j] == rest[j - 1];
      }
    }
  }

  /** The head of a newest-first list is no older than the rows of its tail, nor than a row
      no newer than itself. */
  lemma HeadNoOlder(rows: seq<ImageRow>, x: ImageRow, rest: seq<ImageRow>)
    requires NewestFirst(rows) && |rows| > 0 && rows[0].uploadedAt >= x.uploadedAt
    requires forall k :: 0 <= k < |rest| ==> rest[k] == x || rest[k] in rows[1..]
    ensures forall j :: 0 <= j < |rest| ==> rows[0].uploadedAt >= rest[j].uploadedAt
  {
    forall j | 0 <= j < |rest| ensures rows[0].uploadedAt >= rest[j].uploadedAt {
      if rest[j] != x {
        var i :| 0 <= i < |rows[1..]| && rows[1..][i] == rest[j];
        assert rows[i + 1] == rest[j];
      }
    }
  }

  /** Inserts a row into a newest-first list, after the rows at least as new. */
  function InsertByTime(x: ImageRow, rows: seq<ImageRow>): (r: seq<ImageRow>)
    requires NewestFirst(rows)
    ensures NewestFirst(r)
    ensures multiset(r) == multiset(rows) + multiset{x}
    ensures forall k :: 0 <= k < |r| ==> r[k] == x || r[k] in rows
  {
    if |rows| == 0 then [x]
    else if rows[0].uploadedAt >= x.uploadedAt then
      var rest := InsertByTime(x, rows[1..]);
      assert rows == [rows[0]] + rows[1..];
      HeadNoOlder(rows, x, rest);
      NewestFirstCons(rows[0], rest);
      [rows[0]] + rest
    else
      NewestFirstCons(x, rows);
      [x] + rows
  }

  /** `.order('uploaded_at', { ascending: false })`. The order among rows with equal times is
      the database's to choose; this insertion sort puts each row after the equal ones already
      placed, so ties come out in reverse table order. */
  function SortNewestFirst(rows: seq<ImageRow>): (r: seq<ImageRow>)
    ensures NewestFirst(r)
    ensures multiset(r) == multiset(rows)
  {
    if |rows| == 0 then []
    else
      assert rows == [rows[0]] + rows[1..];
      InsertByTime(rows[0], SortNewestFirst(rows[1..]))
  }

  function ToListed(x: ImageRow, signedUrl: string -> Option<string>): Listed {
    var url := signedUrl(x.filePath);
    Listed(x.id, x.filename, x.originalFilename, x.description, x.uploadedAt, x.fileSize, x.filePath,
           if url.Some? && url.value != [] then url else None)
  }

  /** The listing `manage-images` sends user `u`: all of their images, newest first, each with
      its signed URL. */
  function ListingFor(rows: seq<ImageRow>, u: UserId, signedUrl: string -> Option<string>): (r: seq<Listed>)
    ensures |r| == CountFor(rows, u)
    ensures forall i, j :: 0 <= i < j < |r| ==> r[i].uploadedAt >= r[j].uploadedAt
  {
    var owned := Owned(rows, u);
    var sorted := SortNewestFirst(owned);
    assert |sorted| == |owned| by { assert |multiset(sorted)| == |multiset(owned)|; }
    seq(|sorted|, k requires 0 <= k < |sorted| => ToListed(sorted[k], signedUrl))
  }

  /** Each listed entry is one of the user's images. */
  lemma ListingOnlyOwned(rows: seq<ImageRow>, u: UserId, signedUrl: string -> Option<string>, k: nat)
    requires k < |ListingFor(rows, u, signedUrl)|
    ensures var e := ListingFor(rows, u, signedUrl)[k];
            exists x :: x in rows && x.owner == u && x.id == e.id && x.filePath == e.filePath
  {
    var owned := Owned(rows, u);
    var sorted := SortNewestFirst(owned);
    assert sorted[k] in multiset(owned);
    assert sorted[k] in owned;
  }

  /** Each of the user's images is listed. */
  lemma ListingHasOwned(rows: seq<ImageRow>, u: UserId, signedUrl: string -> Option<string>, x: ImageRow)
    requires x in rows && x.owner == u
    ensures var r := ListingFor(rows, u, signedUrl);
            exists k :: 0 <= k < |r| && r[k].id == x.id && r[k].filePath == x.filePath
  {
    var owned := Owned(rows, u);
    var sorted := SortNewestFirst(owned);
    assert x in multiset(owned);
    assert x in multiset(sorted);
    var k :| 0 <= k < |sorted| && sorted[k] == x;
    assert ListingFor(rows, u, signedUrl)[k] == ToListed(x, signedUrl);
  }

  datatype ManageReply = Listing(images: seq<Listed>) | Removed(message: string)

  /** What the database and the storage service answer to `manage-images`. `signedUrl` is the
      signed URL storage creates for a path, if it does. */
  datatype ManageEnv = ManageEnv(
    listError: Option<string>,
    signedUrl: string -> Option<string>,
    storageRemoved: bool,
    deleteError: Option<string>)

  /** `url.pathname.split('/').pop()`: the last path segment. */
  function ImageIdOf(pathname: string): string {
    PopPiece(pathname, '/')
  }

  /** The function `manage-images`: `GET` lists, `DELETE` removes the image named by the last
      path segment; authentication comes before the method check. */
  function ManageImages(verb: Method, header: Option<string>, verify: string -> Option<UserId>,
                        pathname: string, env: ManageEnv, g: Gallery): (r: (Reply<ManageReply>, Gallery))
    ensures verb != Delete ==> r.1 == g
    ensures r.0.Ok? && r.0.body.Listing? ==>
      verb == Get && Authenticate(header, verify).Success?
      && r.0.body.images == ListingFor(g.rows, Authenticate(header, verify).value, env.signedUrl)
    ensures r.0.Ok? && r.0.body.Removed? ==>
      verb == Delete && Authenticate(header, verify).Success? &&
      var u := Authenticate(header, verify).value;
      && Lookup(g.rows, ImageIdOf(pathname), u).Some?
      && r.1.rows == DeleteRows(g.rows, ImageIdOf(pathname), u)
    ensures r.0.Err? && r.0.status == 405 <==>
      verb !in {Options, Get, Delete} && Authenticate(header, verify).Success?
    ensures verb != Options && Authenticate(header, verify).Failure? ==> r == (Err(401, Authenticate(header, verify).error), g)
    ensures verb == Get && Authenticate(header, verify).Success? && env.listError.None? ==>
              r.0 == Ok(Listing(ListingFor(g.rows, Authenticate(header, verify).value, env.signedUrl)))
    ensures verb == Delete && Authenticate(header, verify).Success? && ImageIdOf(pathname) == [] ==>
              r == (Err(400, IdRequired), g)
    ensures (verb == Delete && Authenticate(header, verify).Success? && ImageIdOf(pathname) != []
             && Lookup(g.rows, ImageIdOf(pathname), Authenticate(header, verify).value).None?) ==>
              r == (Err(404, ImageNotFound), g)
    ensures (verb == Delete && Authenticate(header, verify).Success? && ImageIdOf(pathname) != []
             && Lookup(g.rows, ImageIdOf(pathname), Authenticate(header, verify).value).Some?) ==>
              var u := Authenticate(header, verify).value;
              var image := Lookup(g.rows, ImageIdOf(pathname), u).value;
              && r.1.objects == (if env.storageRemoved then g.objects - {image.filePath} else g.objects)
              && (env.deleteError.None? ==>
                    r.0 == Ok(Removed(DeletedMessage)) && r.1.rows == DeleteRows(g.rows, ImageIdOf(pathname), u))
              && (env.deleteError.Some? ==> r.0.Err? && r.0.status == 500 && r.1.rows == g.rows)
  {
    if verb == Options then (Preflight, g)
    else
      match Authenticate(header, verify)
      case Failure(m) => (Err(401, m), g)
      case Success(u) =>
        var imageId := ImageIdOf(pathname);
        if verb == Get then
          if env.listError.Some? then (Err(500, "Database error: " + env.listError.value), g)
          else
            (Ok(Listing(ListingFor(g.rows, u, env.signedUrl))), g)
        else if verb == Delete then
          if imageId == [] then (Err(400, IdRequired), g)
          else
            match Lookup(g.rows, imageId, u)
            case None => (Err(404, ImageNotFound), g)
            case Some(image) =>
              // a failed storage removal is only logged
              var objects := if env.storageRemoved then g.objects - {image.filePath} else g.objects;
              if env.deleteError.Some? then (Err(500, "Database error: " + env.deleteError.value), Gallery(g.rows, objects))
              else (Ok(Removed(DeletedMessage)), Gallery(DeleteRows(g.rows, imageId, u), objects))
        else (Err(405, MethodNotAllowed), g)
  }

  /** Managing images never takes a user past five images, and never touches another
      user's images. */
  lemma ManageKeepsCap(verb: Method, header: Option<string>, verify: string -> Option<UserId>,
                       pathname: string, env: ManageEnv, g: Gallery, v: UserId)
    requires WithinCap(g)
    ensures var r := ManageImages(verb, header, verify, pathname, env, g);
            && WithinCap(r.1)
            && (Authenticate(header, verify).Success? && v != Authenticate(header, verify).value ==>
                  Owned(r.1.rows, v) == Owned(g.rows, v))
  {
    var r := ManageImages(verb, header, verify, pathname, env, g);
    if verb == Delete && Authenticate(header, verify).Success? {
      var u := Authenticate(header, verify).value;
      var id := ImageIdOf(pathname);
      assert r.1.rows == g.rows || r.1.rows == DeleteRows(g.rows, id, u);
      forall w ensures CountFor(r.1.rows, w) <= MaxImages {
        assert CountFor(g.rows, w) <= MaxImages;
        DeleteRowsOwned(g.rows, id, u, w);
      }
      DeleteRowsOwned(g.rows, id, u, v);
    }
  }
}
