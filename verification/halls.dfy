/** The hall handlers: validation of a new hall, stored image names, the content type of a served
    image, and the image URL lists of the hall listing. */
module Halls {
  import opened Records
  import opened Decimal

  /** The checks a new hall must pass, in order; None when it passes. Availability bounds are only
      checked when both are set. */
  function ValidateHall(h: Hall, now: Instant): (r: Option<Failure>)
    ensures r.None? <==>
              h.capacity > 0 && h.costPerDay > 0.0
              && (h.availableFrom.Some? && h.availableTo.Some? ==>
                    h.availableFrom.value < h.availableTo.value && h.availableFrom.value >= now)
    ensures h.capacity <= 0 || h.costPerDay <= 0.0 ==> r == Some(BadRequest("Capacity and cost must be positive numbers"))
    ensures (h.capacity > 0 && h.costPerDay > 0.0 && h.availableFrom.Some? && h.availableTo.Some?
             && h.availableFrom.value >= h.availableTo.value)
              ==> r == Some(BadRequest("AvailableFrom must be before AvailableTo"))
    ensures (h.capacity > 0 && h.costPerDay > 0.0 && h.availableFrom.Some? && h.availableTo.Some?
             && h.availableFrom.value < h.availableTo.value && h.availableFrom.value < now)
              ==> r == Some(BadRequest("AvailableFrom cannot be in the past"))
  {
    if h.capacity <= 0 || h.costPerDay <= 0.0 then Some(BadRequest("Capacity and cost must be positive numbers"))
    else if h.availableFrom.Some? && h.availableTo.Some? then
      if !(h.availableFrom.value < h.availableTo.value) then Some(BadRequest("AvailableFrom must be before AvailableTo"))
      else if h.availableFrom.value < now then Some(BadRequest("AvailableFrom cannot be in the past"))
      else None
    else None
  }

  /** A hall with only one availability bound set is not checked against now at all. */
  lemma OneBoundSkipsDateChecks(h: Hall, now: Instant)
    requires h.capacity > 0 && h.costPerDay > 0.0 && (h.availableFrom.None? || h.availableTo.None?)
    ensures ValidateHall(h, now).None?
  {
  }

  /** The name an uploaded image is stored under: `"<hall id>_<original file name>"`. */
  function StoredImageName(hallId: nat, fileName: string): string
  {
    FormatUint(hallId) + "_" + fileName
  }

  /** The index of the first `_` in `s`, if any. */
  function FirstUnderscore(s: string): (k: Option<nat>)
    ensures k.Some? ==> k.value < |s| && s[k.value] == '_' && forall j :: 0 <= j < k.value ==> s[j] != '_'
    ensures k.None? ==> forall j :: 0 <= j < |s| ==> s[j] != '_'
  {
    if s == [] then None
    else if s[0] == '_' then Some(0)
    else
      var rest := FirstUnderscore(s[1..]);
      if rest.Some? then Some(rest.value + 1) else None
  }

  /** Read a stored image name back as the hall id and the original file name. */
  function SplitStoredName(name: string): Option<(nat, string)>
  {
    var k := FirstUnderscore(name);
    if k.None? then None
    else
      var id := ParseUint(name[..k.value]);
      if id.None? then None else Some((id.value, name[k.value + 1..]))
  }

  /** A stored name determines both the hall and the original file name. */
  lemma StoredNameRoundTrip(hallId: nat, fileName: string)
    requires hallId <= MaxUint64
    ensures SplitStoredName(StoredImageName(hallId, fileName)) == Some((hallId, fileName))
  {
    var digits := FormatUint(hallId);
    var name := StoredImageName(hallId, fileName);
    assert forall j :: 0 <= j < |digits| ==> name[j] == digits[j] && IsDigit(digits[j]);
    assert name[|digits|] == '_';
    var k := FirstUnderscore(name);
    assert k == Some(|digits|);
    assert name[..|digits|] == digits;
    assert name[|digits| + 1..] == fileName;
    ParseFormatRoundTrip(hallId);
  }

  /** The images stored for a hall's uploads, one per file, in upload order. */
  function ImagesFor(hallId: nat, fileNames: seq<string>): (images: seq<HallImage>)
    ensures |images| == |fileNames|
  {
    if fileNames == [] then []
    else ImagesFor(hallId, fileNames[..|fileNames| - 1]) + [HallImage(hallId, StoredImageName(hallId, fileNames[|fileNames| - 1]))]
  }

  lemma {:induction false} ImagesForAt(hallId: nat, fileNames: seq<string>, k: nat)
    requires k < |fileNames|
    ensures ImagesFor(hallId, fileNames)[k] == HallImage(hallId, StoredImageName(hallId, fileNames[k]))
  {
    if k < |fileNames| - 1 {
      ImagesForAt(hallId, fileNames[..|fileNames| - 1], k);
    }
  }

  /** Every image recorded for an upload names the hall and the original file it came from. */
  lemma StoredImagesIdentifyUploads(hallId: nat, fileNames: seq<string>, k: nat)
    requires hallId <= MaxUint64 && k < |fileNames|
    ensures ImagesFor(hallId, fileNames)[k].hallId == hallId
    ensures SplitStoredName(ImagesFor(hallId, fileNames)[k].imageName) == Some((hallId, fileNames[k]))
  {
    ImagesForAt(hallId, fileNames, k);
    StoredNameRoundTrip(hallId, fileNames[k]);
  }

  /** The multipart form of `CreateHall`: unparsable, without a `hall` part, with a `hall` part that is
      not a hall, or a hall with the names of its uploaded files. */
  datatype HallForm = FormError | HallDataMissing | InvalidHallJson | Form(hall: Hall, fileNames: seq<string>)

  datatype CreatedHall = CreatedHall(hall: Hall, images: seq<HallImage>)

  /** `CreateHall`: read the form, validate the hall, store it under its own id (or `newId` when it
      carries none), then record one image per uploaded file. */
  method CreateHall(db: Storage, form: HallForm, newId: nat, now: Instant) returns (out: Result<CreatedHall>)
    ensures form.FormError? ==> out == Err(BadRequest("Failed to parse form"))
    ensures form.HallDataMissing? ==> out == Err(BadRequest("Hall data missing"))
    ensures form.InvalidHallJson? ==> out == Err(BadRequest("Invalid hall JSON data"))
    ensures form.Form? && ValidateHall(form.hall, now).Some? ==> out == Err(ValidateHall(form.hall, now).value)
    ensures form.Form? && ValidateHall(form.hall, now).None? && !db.online ==> out == Err(Internal("Failed to create hall"))
    ensures out.Ok? <==> form.Form? && ValidateHall(form.hall, now).None? && db.online
    ensures out.Ok? ==> out.value.hall == form.hall.(id := AssignedId(form.hall.id, newId))
                        && out.value.images == ImagesFor(AssignedId(form.hall.id, newId), form.fileNames)
  {
    if form.FormError? {
      return Err(BadRequest("Failed to parse form"));
    }
    if form.HallDataMissing? {
      return Err(BadRequest("Hall data missing"));
    }
    if form.InvalidHallJson? {
      return Err(BadRequest("Invalid hall JSON data"));
    }
    var invalid := ValidateHall(form.hall, now);
    if invalid.Some? {
      return Err(invalid.value);
    }
    if !db.online {
      return Err(Internal("Failed to create hall"));
    }
    var hall := form.hall.(id := AssignedId(form.hall.id, newId));
    var files := form.fileNames;
    var images: seq<HallImage> := [];
    var i := 0;
    while i < |files|
      invariant 0 <= i <= |files|
      invariant images == ImagesFor(hall.id, files[..i])
    {
      var filename := StoredImageName(hall.id, files[i]);
      images := images + [HallImage(hall.id, filename)];
      assert files[..i + 1][..i] == files[..i];
      i := i + 1;
    }
    assert files[..i] == files;
    return Ok(CreatedHall(hall, images));
  }

  /** `CreateHall_old`: the same validation for a JSON body, without images. */
  method CreateHallOld(db: Storage, payload: Option<Hall>, newId: nat, now: Instant) returns (out: Result<Hall>)
    ensures payload.None? ==> out == Err(BadRequest("Invalid request payload"))
    ensures payload.Some? && ValidateHall(payload.value, now).Some? ==> out == Err(ValidateHall(payload.value, now).value)
    ensures payload.Some? && ValidateHall(payload.value, now).None? && !db.online ==> out == Err(Internal("Failed to create hall"))
    ensures out.Ok? <==> payload.Some? && ValidateHall(payload.value, now).None? && db.online
    ensures out.Ok? ==> out.value == payload.value.(id := AssignedId(payload.value.id, newId))
  {
    if payload.None? {
      return Err(BadRequest("Invalid request payload"));
    }
    var invalid := ValidateHall(payload.value, now);
    if invalid.Some? {
      return Err(invalid.value);
    }
    if !db.online {
      return Err(Internal("Failed to create hall"));
    }
    return Ok(payload.value.(id := AssignedId(payload.value.id, newId)));
  }

  /** `filepath.Ext`: the suffix from the last `.` of the final path element, or empty. */
  function Ext(path: string): (ext: string)
    ensures |ext| <= |path| && ext == path[|path| - |ext|..]
    ensures ext != [] ==> ext[0] == '.' && forall k :: 1 <= k < |ext| ==> ext[k] != '.' && ext[k] != '/'
  {
    if path == [] then ""
    else
      var c := path[|path| - 1];
      if c == '/' then ""
      else if c == '.' then "."
      else
        var e := Ext(path[..|path| - 1]);
        if e == [] then "" else e + [c]
  }

  /** A name ending in `.` followed by characters other than `.` and `/` has that ending as its extension. */
  lemma {:induction false} ExtOfName(stem: string, ext: string)
    requires ext != [] && ext[0] == '.' && forall k :: 1 <= k < |ext| ==> ext[k] != '.' && ext[k] != '/'
    ensures Ext(stem + ext) == ext
    decreases |ext|
  {
    var path := stem + ext;
    if |ext| == 1 {
      assert path[|path| - 1] == '.';
    } else {
      var init := ext[..|ext| - 1];
      var c := ext[|ext| - 1];
      var prefix := path[..|path| - 1];
      assert path[|path| - 1] == c && c != '.' && c != '/';
      assert prefix == stem + init;
      ExtOfName(stem, init);
      ExtStep(path);
      assert init + [c] == ext;
    }
  }

  /** One step of the backward scan: a last character other than `.` and `/` extends a non-empty
      extension of the rest. */
  lemma ExtStep(path: string)
    requires path != [] && path[|path| - 1] != '.' && path[|path| - 1] != '/'
    requires Ext(path[..|path| - 1]) != []
    ensures Ext(path) == Ext(path[..|path| - 1]) + [path[|path| - 1]]
  {
  }

  /** A path without any `.` has no extension. */
  lemma {:induction false} NoDotNoExt(path: string)
    requires forall k :: 0 <= k < |path| ==> path[k] != '.'
    ensures Ext(path) == ""
  {
    if path != [] {
      NoDotNoExt(path[..|path| - 1]);
    }
  }

  /** The `Content-Type` for an extension, matched exactly (so case-sensitively). */
  function ContentType(ext: string): (ct: string)
    ensures ct == "image/jpeg" <==> ext == ".jpg" || ext == ".jpeg"
    ensures ct == "image/png" <==> ext == ".png"
    ensures ct == "image/gif" <==> ext == ".gif"
    ensures ct != "image/jpeg" && ct != "image/png" && ct != "image/gif" ==> ct == "application/octet-stream"
  {
    if ext == ".jpg" || ext == ".jpeg" then "image/jpeg"
    else if ext == ".png" then "image/png"
    else if ext == ".gif" then "image/gif"
    else "application/octet-stream"
  }

  /** `ServeImage`: 404 when the file is missing, otherwise the content type of the requested path.
      `fileExists` is the outcome of the existence check on the upload directory. */
  function ServeImage(path: string, fileExists: bool): (r: Result<string>)
    ensures !fileExists ==> r == Err(NotFound("Image not found"))
    ensures r.Ok? <==> fileExists
    ensures r.Ok? ==> (r.value == "image/jpeg" <==> Ext(path) == ".jpg" || Ext(path) == ".jpeg")
    ensures r.Ok? ==> (r.value == "image/png" <==> Ext(path) == ".png")
    ensures r.Ok? ==> (r.value == "image/gif" <==> Ext(path) == ".gif")
    ensures r.Ok? && r.value !in ["image/jpeg", "image/png", "image/gif"] ==> r.value == "application/octet-stream"
  {
    if !fileExists then Err(NotFound("Image not found")) else Ok(ContentType(Ext(path)))
  }

  /** A stored upload named `photo.png` is served as `image/png`; one named `photo.PNG` is not
      recognised. */
  lemma ServedTypeOfStoredUpload(hallId: nat)
    ensures ServeImage(StoredImageName(hallId, "photo.png"), true) == Ok("image/png")
    ensures ServeImage(StoredImageName(hallId, "photo.PNG"), true) == Ok("application/octet-stream")
  {
    assert StoredImageName(hallId, "photo.png") == (FormatUint(hallId) + "_photo") + ".png";
    ExtOfName(FormatUint(hallId) + "_photo", ".png");
    assert StoredImageName(hallId, "photo.PNG") == (FormatUint(hallId) + "_photo") + ".PNG";
    ExtOfName(FormatUint(hallId) + "_photo", ".PNG");
  }

  /** The names of a hall's images, in the order they were loaded. */
  function ImageNames(images: seq<HallImage>): (names: seq<string>)
    ensures |names| == |images|
  {
    if images == [] then [] else ImageNames(images[..|images| - 1]) + [images[|images| - 1].imageName]
  }

  lemma {:induction false} ImageNamesAt(images: seq<HallImage>, k: nat)
    requires k < |images|
    ensures ImageNames(images)[k] == images[k].imageName
  {
    if k < |images| - 1 {
      ImageNamesAt(images[..|images| - 1], k);
    }
  }

  /** The inner loop of `GetHalls`: collect the names of one hall's images. */
  method ImagePaths(images: seq<HallImage>) returns (imagePaths: seq<string>)
    ensures |imagePaths| == |images|
    ensures forall k :: 0 <= k < |images| ==> imagePaths[k] == images[k].imageName
  {
    imagePaths := [];
    var i := 0;
    while i < |images|
      invariant 0 <= i <= |images|
      invariant |imagePaths| == i
      invariant forall k :: 0 <= k < i ==> imagePaths[k] == images[k].imageName
    {
      imagePaths := imagePaths + [images[i].imageName];
      i := i + 1;
    }
  }

  /** The outer loop of `GetHalls`: set each hall's image URLs to its image names, in place. */
  method FillImageUrls(halls: array<Hall>)
    modifies halls
    ensures forall k :: 0 <= k < halls.Length ==>
              halls[k] == old(halls[k]).(imageUrls := ImageNames(old(halls[k]).images))
  {
    var i := 0;
    while i < halls.Length
      invariant 0 <= i <= halls.Length
      invariant forall k :: 0 <= k < i ==> halls[k] == old(halls[k]).(imageUrls := ImageNames(old(halls[k]).images))
      invariant forall k :: i <= k < halls.Length ==> halls[k] == old(halls[k])
    {
      var imagePaths := ImagePaths(halls[i].images);
      forall k | 0 <= k < |imagePaths| ensures imagePaths[k] == ImageNames(halls[i].images)[k] {
        ImageNamesAt(halls[i].images, k);
      }
      halls[i] := halls[i].(imageUrls := imagePaths);
      i := i + 1;
    }
  }

  /** `GetHalls`: load every hall with its images and fill in the image URLs. */
  method GetHalls(db: Storage) returns (out: Result<seq<Hall>>)
    ensures !db.online ==> out == Err(Internal("Failed to retrieve halls"))
    ensures db.online ==> out.Ok? && |out.value| == |db.halls|
    ensures db.online ==> forall k :: 0 <= k < |db.halls| ==>
              out.value[k] == db.halls[k].(imageUrls := ImageNames(db.halls[k].images))
  {
    if !db.online {
      return Err(Internal("Failed to retrieve halls"));
    }
    var halls := new Hall[|db.halls|](k requires 0 <= k < |db.halls| => db.halls[k]);
    FillImageUrls(halls);
    return Ok(halls[..]);
  }
}
