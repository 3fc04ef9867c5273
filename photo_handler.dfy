/** The photo HTTP handler (handlers/photo.go): it reads the caller's id from the token claims,
    refuses a JSON body, a missing file and a file whose extension is not an image's before the
    service is called, and turns the service's answer into a status and a JSON body.

    Each endpoint is specified by a pure function over the photo service's `World` that returns a
    `Handled`: the reply, the world afterwards and the calls the service made. The `PhotoHandler`
    class performs the same steps through a live `PhotoSvc` and is proved to match. An error's
    text (`err.Error()`) comes from GORM, the validator or the store and is the parameter
    `errText`. */
module PhotoHandlers {
  import opened Wrappers
  import opened Text
  import opened Models
  import opened Database
  import opened PhotoRepository
  import opened Cloudinary
  import opened PhotoService
  import opened Jwt
  import opened Middlewares

  const StatusOK: nat := 200
  const StatusCreated: nat := 201

  /** The Content-Type the upload endpoints refuse (helpers.AppJson). */
  const AppJson: string := "application/json"

  const InvalidContentType: ErrorResponse := ErrorResponse("BAD REQUEST", "invalid content type")
  const NoPhotoFile: ErrorResponse := ErrorResponse("BAD REQUEST", "no photo file uploaded")
  const InvalidFileType: ErrorResponse := ErrorResponse("BAD REQUEST", "invalid file type")

  /** The form fields ShouldBind fills. */
  datatype PhotoForm = PhotoForm(title: string, caption: string, photoUrl: string)

  datatype Body =
    | FailureBody(failure: ErrorResponse)
    | PhotoBody(photo: PhotoCreateOutput)
    | OneBody(shown: PhotoGetOutput)
    | ListBody(photos: seq<PhotoGetOutput>)
    | DeleteBody(deleted: DeleteResponse)

  /** What the client gets: a status with a JSON body, a panic (the claim cast), or nothing at all
      because the process exited inside the service. */
  datatype Reply = Json(status: nat, body: Body) | Crashed | ProcessExited

  datatype Handled = Handled(reply: Reply, after: World, calls: seq<Call>)

  // ---- request parsing ----

  /** The file name's extension is one of the image extensions; the comparison is case-sensitive. */
  predicate IsImageName(fileName: string) {
    var ext := Ext(fileName);
    ext == ".jpg" || ext == ".jpeg" || ext == ".png" || ext == ".webp"
  }

  /** Create's guards, in order: the Content-Type, the presence of the file, its extension. */
  function CreateGate(contentType: string, file: Option<string>): (g: Option<ErrorResponse>)
    ensures g.None? <==> contentType != AppJson && file.Some? && IsImageName(file.value)
    ensures contentType == AppJson ==> g == Some(InvalidContentType)
    ensures contentType != AppJson && file.None? ==> g == Some(NoPhotoFile)
    ensures contentType != AppJson && file.Some? && !IsImageName(file.value) ==> g == Some(InvalidFileType)
  {
    if contentType == AppJson then Some(InvalidContentType)
    else if file.None? then Some(NoPhotoFile)
    else if !IsImageName(file.value) then Some(InvalidFileType)
    else None
  }

  /** Update's guards: the Content-Type, then the extension only when a file came. */
  function UpdateGate(contentType: string, file: Option<string>): (g: Option<ErrorResponse>)
    ensures g.None? <==> contentType != AppJson && (file.Some? ==> IsImageName(file.value))
    ensures contentType == AppJson ==> g == Some(InvalidContentType)
    ensures contentType != AppJson && file.Some? && !IsImageName(file.value) ==> g == Some(InvalidFileType)
  {
    if contentType == AppJson then Some(InvalidContentType)
    else if file.Some? && !IsImageName(file.value) then Some(InvalidFileType)
    else None
  }

  // ---- response bodies ----

  /** PhotoCreateOutput / PhotoUpdateOutput: the row's fields and its owner's id. */
  function SavedOutput(p: Photo): (o: PhotoCreateOutput)
    ensures o.id == p.id && o.title == p.title && o.caption == p.caption
    ensures o.photoUrl == p.photoUrl && o.userId == p.userId
  {
    PhotoCreateOutput(p.id, p.title, p.caption, p.photoUrl, p.userId)
  }

  /** PhotoGetOutput: the row's fields and the owner's password-free projection. */
  function GetOutput(l: Loaded<Photo>): (o: PhotoGetOutput)
    ensures o.id == l.row.id && o.title == l.row.title && o.caption == l.row.caption
    ensures o.photoUrl == l.row.photoUrl && o.user == l.user
  {
    PhotoGetOutput(l.row.id, l.row.title, l.row.caption, l.row.photoUrl, l.user)
  }

  /** The GetAll response: one output per loaded photo, in the same order. */
  function Projected(photos: seq<Loaded<Photo>>): (out: seq<PhotoGetOutput>)
    ensures |out| == |photos|
    ensures forall i :: 0 <= i < |photos| ==> out[i] == GetOutput(photos[i])
  {
    if photos == [] then [] else [GetOutput(photos[0])] + Projected(photos[1..])
  }

  function DeletedMessage(id: int): string {
    "photo data with id " + IntText(id) + " has been deleted"
  }

  /** A service answer on Create or Update: the output with `okStatus`, any error as 400 with
      its text, and no reply at all when the process exited. */
  function SavedReply(result: Result<Photo, PhotoFailure>, okStatus: nat, errText: PhotoFailure -> string): (r: Reply)
    requires okStatus != StatusBadRequest
    ensures r == ProcessExited <==> result == Err(Exited)
    ensures r.Json? && r.status == okStatus <==> result.Ok?
    ensures result.Ok? ==> r.body == PhotoBody(SavedOutput(result.value))
    ensures result.Err? && result.error != Exited ==>
      r == Json(StatusBadRequest, FailureBody(ErrorResponse("BAD REQUEST", errText(result.error))))
  {
    match result
    case Ok(p) => Json(okStatus, PhotoBody(SavedOutput(p)))
    case Err(Exited) => ProcessExited
    case Err(e) => Json(StatusBadRequest, FailureBody(ErrorResponse("BAD REQUEST", errText(e))))
  }

  /** A service answer on Delete: any error is 404, success names the id from the path. */
  function DeleteReply(result: Result<Photo, PhotoFailure>, id: int, errText: PhotoFailure -> string): (r: Reply)
    ensures r == ProcessExited <==> result == Err(Exited)
    ensures r.Json? && r.status == StatusOK <==> result.Ok?
    ensures result.Ok? ==> r.body == DeleteBody(DeleteResponse(DeletedMessage(id)))
    ensures result.Err? && result.error != Exited ==>
      r == Json(StatusNotFound, FailureBody(ErrorResponse("NOT FOUND", errText(result.error))))
  {
    match result
    case Ok(_) => Json(StatusOK, DeleteBody(DeleteResponse(DeletedMessage(id))))
    case Err(Exited) => ProcessExited
    case Err(e) => Json(StatusNotFound, FailureBody(ErrorResponse("NOT FOUND", errText(e))))
  }

  // ---- the endpoints ----

  /** GET /photos: 400 when the read fails, else 200 with every photo projected. */
  function GetAllReply(found: Result<seq<Loaded<Photo>>, DbError>, errText: PhotoFailure -> string): (r: Reply)
    ensures r.Json?
    ensures r.status == StatusOK <==> found.Ok?
    ensures found.Ok? ==> r.body == ListBody(Projected(found.value))
    ensures found.Err? ==>
      r == Json(StatusBadRequest, FailureBody(ErrorResponse("BAD REQUEST", errText(DbFailed(found.error)))))
  {
    match found
    case Err(e) => Json(StatusBadRequest, FailureBody(ErrorResponse("BAD REQUEST", errText(DbFailed(e)))))
    case Ok(photos) => Json(StatusOK, ListBody(Projected(photos)))
  }

  /** GET /photos/:photoId: 404 when the read fails, else 200 with the photo projected. */
  function GetOneReply(found: Result<Loaded<Photo>, DbError>, errText: PhotoFailure -> string): (r: Reply)
    ensures r.Json?
    ensures r.status == StatusOK <==> found.Ok?
    ensures found.Ok? ==> r.body == OneBody(GetOutput(found.value))
    ensures found.Err? ==>
      r == Json(StatusNotFound, FailureBody(ErrorResponse("NOT FOUND", errText(DbFailed(found.error)))))
  {
    match found
    case Err(e) => Json(StatusNotFound, FailureBody(ErrorResponse("NOT FOUND", errText(DbFailed(e)))))
    case Ok(l) => Json(StatusOK, OneBody(GetOutput(l)))
  }

  /** POST /photos: the claimed id is read first (a missing one panics), then the guards; only
      a request that passes them reaches the service. */
  function CreateHandled(w: World, cloud: CloudName, contentType: string, userData: Claims, form: PhotoForm,
                         file: Option<string>, uuid: UuidText, env: Env, errText: PhotoFailure -> string): (h: Handled)
    ensures ClaimedUserId(userData).None? ==> h == Handled(Crashed, w, [])
    ensures ClaimedUserId(userData).Some? && CreateGate(contentType, file).Some? ==>
      h == Handled(Json(StatusBadRequest, FailureBody(CreateGate(contentType, file).value)), w, [])
  {
    match ClaimedUserId(userData)
    case None => Handled(Crashed, w, [])
    case Some(userId) =>
      match CreateGate(contentType, file)
      case Some(refusal) => Handled(Json(StatusBadRequest, FailureBody(refusal)), w, [])
      case None =>
        var run := CreateFlow(w, cloud, PhotoCreateInput(form.title, form.caption, form.photoUrl, userId), uuid, env);
        Handled(SavedReply(run.result, StatusCreated, errText), run.after, run.calls)
  }

  /** The update the handler asks for: the id from the path, the owner from the claims. */
  function UpdateInput(param: string, userId: nat, form: PhotoForm): (input: PhotoUpdateInput)
    ensures input.id < Uint64Modulus && IntOf(input.id) == AtoiValue(param)
    ensures input.userId == userId
  {
    PhotoUpdateInput(UintOf(AtoiValue(param)), form.title, form.caption, form.photoUrl, userId)
  }

  /** PUT /photos/:photoId: as Create, except that the file is optional. */
  function UpdateHandled(w: World, users: map<nat, User>, cloud: CloudName, param: string, contentType: string,
                         userData: Claims, form: PhotoForm, file: Option<string>, uuid: UuidText, env: Env,
                         errText: PhotoFailure -> string): (h: Handled)
    ensures ClaimedUserId(userData).None? ==> h == Handled(Crashed, w, [])
    ensures ClaimedUserId(userData).Some? && UpdateGate(contentType, file).Some? ==>
      h == Handled(Json(StatusBadRequest, FailureBody(UpdateGate(contentType, file).value)), w, [])
  {
    match ClaimedUserId(userData)
    case None => Handled(Crashed, w, [])
    case Some(userId) =>
      match UpdateGate(contentType, file)
      case Some(refusal) => Handled(Json(StatusBadRequest, FailureBody(refusal)), w, [])
      case None =>
        var run := UpdateFlow(w, users, cloud, UpdateInput(param, userId, form), file.Some?, uuid, env);
        Handled(SavedReply(run.result, StatusOK, errText), run.after, run.calls)
  }

  /** DELETE /photos/:photoId. */
  function DeleteHandled(w: World, users: map<nat, User>, param: string, env: Env, errText: PhotoFailure -> string)
    : (h: Handled)
    ensures h.after == DeleteFlow(w, users, AtoiValue(param), env).after
    ensures h.calls == DeleteFlow(w, users, AtoiValue(param), env).calls
    ensures h.reply == DeleteReply(DeleteFlow(w, users, AtoiValue(param), env).result, AtoiValue(param), errText)
    ensures h.reply.Json? ==> h.reply.status == StatusOK || h.reply.status == StatusNotFound
  {
    var id := AtoiValue(param);
    var run := DeleteFlow(w, users, id, env);
    Handled(DeleteReply(run.result, id, errText), run.after, run.calls)
  }

  // ---- properties ----

  /** Only the exact text "application/json" is refused as a content type: the same type with a
      charset parameter goes through to the file checks. */
  lemma JsonWithCharsetPasses(file: Option<string>)
    ensures CreateGate("application/json", file) == Some(InvalidContentType)
    ensures CreateGate("application/json; charset=utf-8", file) != Some(InvalidContentType)
    ensures UpdateGate("application/json; charset=utf-8", None) == None
  {
    assert "application/json; charset=utf-8" != AppJson by {
      assert |"application/json; charset=utf-8"| != |AppJson|;
    }
  }

  /** A name ending in an image extension passes, whatever comes before the dot. */
  lemma ImageNamesAccepted(stem: string)
    requires '/' !in stem
    ensures IsImageName(stem + ".jpg") && IsImageName(stem + ".jpeg")
    ensures IsImageName(stem + ".png") && IsImageName(stem + ".webp")
  {
    ExtAfterStem(stem, ".jpg");
    ExtAfterStem(stem, ".jpeg");
    ExtAfterStem(stem, ".png");
    ExtAfterStem(stem, ".webp");
  }

  /** The comparison is case-sensitive: the same extensions in capitals are refused. */
  lemma CapitalExtensionsRefused(stem: string)
    requires '/' !in stem
    ensures !IsImageName(stem + ".PNG") && !IsImageName(stem + ".JPG")
  {
    ExtAfterStem(stem, ".PNG");
    ExtAfterStem(stem, ".JPG");
    assert ".PNG"[1] != ".png"[1] && ".PNG"[1] != ".jpg"[1];
    assert ".JPG"[1] != ".png"[1] && ".JPG"[1] != ".jpg"[1];
  }

  /** The extension of a name with no slash is whatever follows its last dot. */
  lemma ExtAfterStem(stem: string, ext: string)
    requires '/' !in stem && |ext| >= 2 && ext[0] == '.' && '/' !in ext && '.' !in ext[1..]
    ensures Ext(stem + ext) == ext
  {
    var format := ext[1..];
    assert ext == "." + format;
    assert stem + ext == stem + "." + format;
    ExtOf(stem, format);
  }

  /** When a guard refuses, or the claims carry no id, nothing reaches the service: no call is
      made and the world is unchanged. */
  lemma RefusedRequestSkipsService(w: World, users: map<nat, User>, cloud: CloudName, param: string,
                                   contentType: string, userData: Claims, form: PhotoForm, file: Option<string>,
                                   uuid: UuidText, env: Env, errText: PhotoFailure -> string)
    ensures var c := CreateHandled(w, cloud, contentType, userData, form, file, uuid, env, errText);
      (ClaimedUserId(userData).None? || CreateGate(contentType, file).Some?) ==>
        c.calls == [] && c.after == w && !(c.reply.Json? && c.reply.status == StatusCreated)
    ensures var u := UpdateHandled(w, users, cloud, param, contentType, userData, form, file, uuid, env, errText);
      (ClaimedUserId(userData).None? || UpdateGate(contentType, file).Some?) ==>
        u.calls == [] && u.after == w && !(u.reply.Json? && u.reply.status == StatusOK)
  {
  }

  /** A created photo is owned by the user id the handler stamps from the token into the bound
      input, and the 201 body describes the row that was stored. */
  lemma CreatedPhotoOwnedByCaller(w: World, cloud: CloudName, contentType: string, userData: Claims, form: PhotoForm,
                                  file: Option<string>, uuid: UuidText, env: Env, errText: PhotoFailure -> string)
    requires CreateHandled(w, cloud, contentType, userData, form, file, uuid, env, errText).reply.Json?
    requires CreateHandled(w, cloud, contentType, userData, form, file, uuid, env, errText).reply.status == StatusCreated
    ensures var h := CreateHandled(w, cloud, contentType, userData, form, file, uuid, env, errText);
      && ClaimedUserId(userData).Some?
      && h.reply.body.PhotoBody?
      && h.reply.body.photo.userId == ClaimedUserId(userData).value
      && h.reply.body.photo.id == w.nextId
      && h.after.photos == w.photos[w.nextId := Photo(w.nextId, form.title, form.caption,
                                                      h.reply.body.photo.photoUrl, ClaimedUserId(userData).value)]
  {
    var userId := ClaimedUserId(userData).value;
    var input := PhotoCreateInput(form.title, form.caption, form.photoUrl, userId);
    CreateStoresUpload(w, cloud, input, uuid, env);
  }

  /** Without a file, an update of the row the path names keeps its image and, on success, takes
      the form's title and caption; an update whose path names no row changes nothing. */
  lemma UpdateTargetsPathRow(w: World, users: map<nat, User>, cloud: CloudName, param: string, contentType: string,
                             userData: Claims, form: PhotoForm, uuid: UuidText, env: Env, errText: PhotoFailure -> string)
    requires ClaimedUserId(userData).Some? && contentType != AppJson && !env.readFails
    ensures var id := AtoiValue(param);
      var h := UpdateHandled(w, users, cloud, param, contentType, userData, form, None, uuid, env, errText);
      && (0 < id && id as nat in w.photos ==>
            && h.after.blobs == w.blobs
            && h.after.photos.Keys == w.photos.Keys
            && h.after.photos[id as nat].photoUrl == w.photos[id as nat].photoUrl
            && (h.reply.Json? && h.reply.status == StatusOK ==>
                  h.after.photos[id as nat].title == form.title && h.after.photos[id as nat].caption == form.caption))
      && (!(0 <= id && id as nat in w.photos) ==>
            h.after == w && h.reply == Json(StatusBadRequest, FailureBody(ErrorResponse("BAD REQUEST", errText(DbFailed(RecordNotFound))))))
  {
    var id := AtoiValue(param);
    var input := UpdateInput(param, ClaimedUserId(userData).value, form);
    if 0 < id && id as nat in w.photos {
      assert input.id == id as nat;
      UpdateWithoutFileKeepsImage(w, users, cloud, input, uuid, env);
    } else if !(0 <= id && id as nat in w.photos) {
      UpdateMissingDoesNothing(w, users, cloud, input, false, uuid, env);
    }
  }

  /** The success message prints the id the way Atoi reads it back. A path that is not a number
      deletes as id 0 (the value Atoi returns beside its syntax error), which names no row: the reply
      is 404 and nothing changes. */
  lemma DeleteMessageRoundTrip(w: World, users: map<nat, User>, param: string, env: Env, errText: PhotoFailure -> string)
    requires PhotosKeyed(w.photos, w.nextId) && !env.readFails
    ensures var h := DeleteHandled(w, users, param, env, errText);
      h.reply.Json? && h.reply.status == StatusOK ==>
        && h.reply.body == DeleteBody(DeleteResponse(DeletedMessage(AtoiValue(param))))
        && Atoi(IntText(AtoiValue(param))) == Some(AtoiValue(param))
    ensures !IsNumber(param) && !DigitsOverflow(param) ==>
      DeleteHandled(w, users, param, env, errText)
      == Handled(Json(StatusNotFound, FailureBody(ErrorResponse("NOT FOUND", errText(DbFailed(RecordNotFound))))),
                 w, [FindCall(0)])
  {
    AtoiIntText(AtoiValue(param));
  }

  /** A path whose leading digit run overflows uint64 is not read as id 0 but as the int64 bound of
      its sign, whatever follows the digits; a negative one names no row, so the reply is 404 and
      nothing changes. */
  lemma DeleteOverflowedId(w: World, users: map<nat, User>, param: string, env: Env, errText: PhotoFailure -> string)
    requires DigitsOverflow(param) && !env.readFails
    ensures DeleteHandled(w, users, param, env, errText).calls[0]
      == FindCall(if HasPrefix(param, "-") then MinInt64 else MaxInt64)
    ensures HasPrefix(param, "-") ==>
      DeleteHandled(w, users, param, env, errText)
      == Handled(Json(StatusNotFound, FailureBody(ErrorResponse("NOT FOUND", errText(DbFailed(RecordNotFound))))),
                 w, [FindCall(MinInt64)])
  {
  }

  /** GET /photos lists every stored photo once, in increasing id order. */
  lemma GetAllListsEveryPhoto(rows: map<nat, Photo>, nextId: nat, users: map<nat, User>, errText: PhotoFailure -> string)
    requires PhotosKeyed(rows, nextId)
    ensures var r := GetAllReply(FindAllPhotos(rows, nextId, users, false), errText);
      && r.status == StatusOK && r.body.ListBody?
      && |r.body.photos| == |rows|
      && (forall k :: k in rows ==> exists i :: 0 <= i < |r.body.photos| && r.body.photos[i].id == k)
      && (forall i, j :: 0 <= i < j < |r.body.photos| ==> r.body.photos[i].id < r.body.photos[j].id)
  {
    var found := FindAllPhotos(rows, nextId, users, false);
    FindAllPhotosComplete(rows, nextId, users);
    ProjectionKeepsRows(rows, found.value);
  }

  /** Projecting a complete, id-ordered list of rows gives one output per row, in the same order. */
  lemma ProjectionKeepsRows(rows: map<nat, Photo>, ls: seq<Loaded<Photo>>)
    requires forall k | k in rows :: rows[k].id == k
    requires |ls| == |rows|
    requires forall k :: k in rows ==> exists i :: 0 <= i < |ls| && ls[i].row == rows[k]
    requires forall i, j :: 0 <= i < j < |ls| ==> ls[i].row.id < ls[j].row.id
    ensures var out := Projected(ls);
      && |out| == |rows|
      && (forall k :: k in rows ==> exists i :: 0 <= i < |out| && out[i].id == k)
      && (forall i, j :: 0 <= i < j < |out| ==> out[i].id < out[j].id)
  {
    var out := Projected(ls);
    forall k | k in rows
      ensures exists i :: 0 <= i < |out| && out[i].id == k
    {
      var i :| 0 <= i < |ls| && ls[i].row == rows[k];
      assert out[i].id == ls[i].row.id;
    }
    forall i, j | 0 <= i < j < |out|
      ensures out[i].id < out[j].id
    {
      assert out[i].id == ls[i].row.id && out[j].id == ls[j].row.id;
    }
  }

  /** GET /photos/:photoId on a stored id, written as %d prints it, answers 200 with that row and
      its owner. */
  lemma GetOneShowsOwner(rows: map<nat, Photo>, users: map<nat, User>, k: nat, errText: PhotoFailure -> string)
    requires k in rows && k <= MaxInt64
    ensures GetOneReply(PhotoRepository.FindPhoto(rows, users, AtoiValue(DecimalText(k)), false), errText)
         == Json(StatusOK, OneBody(PhotoGetOutput(rows[k].id, rows[k].title, rows[k].caption, rows[k].photoUrl,
                                                  OwnerOf(users, rows[k].userId))))
  {
    AtoiDecimalText(k);
    assert AtoiValue(DecimalText(k)) == k;
  }

  // ---- the handler ----

  class PhotoHandler {
    const svc: PhotoSvc

    constructor (svc: PhotoSvc)
      ensures this.svc == svc
    {
      this.svc := svc;
    }

    /** The append loop that builds the GetAll response. */
    method ProjectPhotos(photos: seq<Loaded<Photo>>) returns (out: seq<PhotoGetOutput>)
      ensures out == Projected(photos)
    {
      out := [];
      var i := 0;
      while i < |photos|
        invariant 0 <= i <= |photos|
        invariant |out| == i
        invariant forall j :: 0 <= j < i ==> out[j] == GetOutput(photos[j])
      {
        out := out + [GetOutput(photos[i])];
        i := i + 1;
      }
    }

    method GetAll(readFails: bool, errText: PhotoFailure -> string) returns (r: Reply)
      ensures r == GetAllReply(FindAllPhotos(svc.repo.db.photos, svc.repo.db.nextPhotoId, svc.repo.db.users, readFails), errText)
    {
      var found := svc.GetAll(readFails);
      if found.Err? {
        return Json(StatusBadRequest, FailureBody(ErrorResponse("BAD REQUEST", errText(DbFailed(found.error)))));
      }
      var out := ProjectPhotos(found.value);
      r := Json(StatusOK, ListBody(out));
    }

    method GetOneById(param: string, readFails: bool, errText: PhotoFailure -> string) returns (r: Reply)
      ensures r == GetOneReply(PhotoRepository.FindPhoto(svc.repo.db.photos, svc.repo.db.users, AtoiValue(param), readFails), errText)
    {
      var found := svc.GetOneById(AtoiValue(param), readFails);
      if found.Err? {
        return Json(StatusNotFound, FailureBody(ErrorResponse("NOT FOUND", errText(DbFailed(found.error)))));
      }
      r := Json(StatusOK, OneBody(GetOutput(found.value)));
    }

    method Create(contentType: string, userData: Claims, form: PhotoForm, file: Option<string>, uuid: UuidText,
                  env: Env, errText: PhotoFailure -> string) returns (r: Reply, ghost calls: seq<Call>)
      requires svc.repo.db.Valid()
      modifies svc.repo.db`photos, svc.repo.db`nextPhotoId, svc.store
      ensures svc.repo.db.Valid()
      ensures var h := CreateHandled(old(svc.State()), svc.store.cloud, contentType, userData, form, file, uuid, env, errText);
        r == h.reply && svc.State() == h.after && calls == h.calls
    {
      var claimed := ClaimedUserId(userData);
      if claimed.None? {
        return Crashed, [];
      }
      var refusal := CreateGate(contentType, file);
      if refusal.Some? {
        return Json(StatusBadRequest, FailureBody(refusal.value)), [];
      }
      var result;
      result, calls := svc.Create(PhotoCreateInput(form.title, form.caption, form.photoUrl, claimed.value), uuid, env);
      r := SavedReply(result, StatusCreated, errText);
    }

    method Update(param: string, contentType: string, userData: Claims, form: PhotoForm, file: Option<string>,
                  uuid: UuidText, env: Env, errText: PhotoFailure -> string) returns (r: Reply, ghost calls: seq<Call>)
      requires svc.repo.db.Valid()
      modifies svc.repo.db`photos, svc.store
      ensures svc.repo.db.Valid()
      ensures var h := UpdateHandled(old(svc.State()), old(svc.repo.db.users), svc.store.cloud, param, contentType,
                                     userData, form, file, uuid, env, errText);
        r == h.reply && svc.State() == h.after && calls == h.calls
    {
      var claimed := ClaimedUserId(userData);
      if claimed.None? {
        return Crashed, [];
      }
      var refusal := UpdateGate(contentType, file);
      if refusal.Some? {
        return Json(StatusBadRequest, FailureBody(refusal.value)), [];
      }
      var result;
      result, calls := svc.Update(UpdateInput(param, claimed.value, form), file.Some?, uuid, env);
      r := SavedReply(result, StatusOK, errText);
    }

    method Delete(param: string, env: Env, errText: PhotoFailure -> string) returns (r: Reply, ghost calls: seq<Call>)
      requires svc.repo.db.Valid()
      modifies svc.repo.db`photos, svc.store
      ensures svc.repo.db.Valid()
      ensures var h := DeleteHandled(old(svc.State()), old(svc.repo.db.users), param, env, errText);
        r == h.reply && svc.State() == h.after && calls == h.calls
    {
      var id := AtoiValue(param);
      var result;
      result, calls := svc.Delete(id, env);
      r := DeleteReply(result, id, errText);
    }
  }
}
