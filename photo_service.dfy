/** The photo lifecycle (services/photo.go): every photo row points at an image in the blob store,
    and Create, Update and Delete each touch both the row table and the store, one after the other,
    with no transaction around them.

    The lifecycle is specified by pure functions over a `World` (the photo table, its id counter and
    the stored public ids) that return a `Run`: the result, the world afterwards, and the calls made
    to the database and the store, in order. What the outside world answers (whether the uploaded
    file opens, the store's replies, whether a database read or write fails) is the `Env`; the UUID
    the upload is named after is a parameter. The `PhotoSvc` class performs the same steps on the
    live repository and store and is proved to match the specification. */
module PhotoService {
  import opened Wrappers
  import opened Text
  import opened Models
  import opened Database
  import opened PhotoRepository
  import opened Cloudinary

  datatype World = World(photos: map<nat, Photo>, nextId: nat, blobs: set<string>)

  /** What the outside world answers during one service call. */
  datatype Env = Env(fileOpens: bool, upload: UploadReply, destroy: DestroyReply, readFails: bool, writeFails: bool)

  /** Why a service call failed. `Exited` is the process ending inside DestroyFromCloudinary. */
  datatype PhotoFailure =
    | Invalid(violations: seq<string>)
    | FileUnreadable
    | StorageFailed(reason: string)
    | DbFailed(error: DbError)
    | Exited

  /** A call the service makes on the repository or the store. */
  datatype Call =
    | FindCall(param: int)
    | UploadCall(publicId: string)
    | InsertCall
    | UpdateCall(id: nat)
    | DestroyCall(url: string)
    | DeleteCall(id: nat)

  datatype Run = Run(result: Result<Photo, PhotoFailure>, after: World, calls: seq<Call>)

  /** The URL the service validates in place of the one still to be uploaded. */
  const Placeholder: string := "placeholder"

  function FromDb(r: Result<Photo, DbError>): (f: Result<Photo, PhotoFailure>)
    ensures f.Ok? <==> r.Ok?
    ensures f.Ok? ==> f.value == r.value
    ensures f.Err? ==> f.error == DbFailed(r.error)
  {
    match r
    case Ok(p) => Ok(p)
    case Err(e) => Err(DbFailed(e))
  }

  // ---- specification ----

  /** Create: validate the other fields against a placeholder URL, open the file, upload it under
      "photos/<uuid>", then insert the row with the delivery URL. */
  function CreateFlow(w: World, cloud: CloudName, input: PhotoCreateInput, uuid: UuidText, env: Env): Run {
    var errs := ValidatePhotoCreate(input.(photoUrl := Placeholder));
    if errs != [] then Run(Err(Invalid(errs)), w, [])
    else if !env.fileOpens then Run(Err(FileUnreadable), w, [])
    else
      var upload := [UploadCall(PublicIdPath(uuid))];
      match UploadResult(cloud, uuid, env.upload)
      case Err(reason) => Run(Err(StorageFailed(reason)), w, upload)
      case Ok(url) =>
        var s := SavePhoto(w.photos, w.nextId, Photo(0, input.title, input.caption, url, input.userId), env.writeFails);
        Run(FromDb(s.result), World(s.rows, s.nextId, BlobsAfterUpload(w.blobs, uuid, env.upload)),
            [UploadCall(PublicIdPath(uuid)), InsertCall])
  }

  /** Update: read the stored row first; with a new file replace its image, without one rewrite
      the row keeping its URL. */
  function UpdateFlow(w: World, users: map<nat, User>, cloud: CloudName, input: PhotoUpdateInput, hasFile: bool,
                      uuid: UuidText, env: Env): Run
    requires input.id < Uint64Modulus
  {
    var find := FindCall(IntOf(input.id));
    match FindPhoto(w.photos, users, IntOf(input.id), env.readFails)
    case Err(e) => Run(Err(DbFailed(e)), w, [find])
    case Ok(found) =>
      if hasFile then ReplaceImage(w, cloud, input, found.row.photoUrl, uuid, env, find)
      else
        var u := UpdatePhoto(w.photos, Photo(input.id, input.title, input.caption, found.row.photoUrl, input.userId),
                             env.writeFails);
        Run(FromDb(u.result), World(u.rows, w.nextId, w.blobs), [find, UpdateCall(input.id)])
  }

  /** An update with a new file, once the row holding `oldUrl` was read: validate the other fields
      against a placeholder URL, open and upload the file, then rewrite the row. */
  function ReplaceImage(w: World, cloud: CloudName, input: PhotoUpdateInput, oldUrl: string, uuid: UuidText, env: Env,
                        find: Call): Run
  {
    var errs := ValidatePhotoUpdate(input.(photoUrl := Placeholder));
    if errs != [] then Run(Err(Invalid(errs)), w, [find])
    else if !env.fileOpens then Run(Err(FileUnreadable), w, [find])
    else
      var upload := UploadCall(PublicIdPath(uuid));
      match UploadResult(cloud, uuid, env.upload)
      case Err(reason) => Run(Err(StorageFailed(reason)), w, [find, upload])
      case Ok(url) => RewriteRow(w.(blobs := BlobsAfterUpload(w.blobs, uuid, env.upload)), input, oldUrl, url, env, find, upload)
  }

  /** The last steps of an update with a new file: write the row with the uploaded image's URL,
      and only when that succeeded destroy the old image. */
  function RewriteRow(w: World, input: PhotoUpdateInput, oldUrl: string, url: string, env: Env, find: Call, upload: Call)
    : Run
  {
    var u := UpdatePhoto(w.photos, Photo(input.id, input.title, input.caption, url, input.userId), env.writeFails);
    if u.result.Err? then Run(Err(DbFailed(u.result.error)), w, [find, upload, UpdateCall(input.id)])
    else
      var after := World(u.rows, w.nextId, BlobsAfterDestroy(w.blobs, oldUrl, env.destroy));
      var destroyed := [find, upload, UpdateCall(input.id), DestroyCall(oldUrl)];
      match DestroyResult(oldUrl, env.destroy)
      case DestroyOk => Run(Ok(u.result.value), after, destroyed)
      case DestroyErr(reason) => Run(Err(StorageFailed(reason)), after, destroyed)
      case Fatal => Run(Err(Exited), after, destroyed)
  }

  /** Delete: read the row, destroy its image, then delete the row. */
  function DeleteFlow(w: World, users: map<nat, User>, id: int, env: Env): Run {
    match FindPhoto(w.photos, users, id, env.readFails)
    case Err(e) => Run(Err(DbFailed(e)), w, [FindCall(id)])
    case Ok(found) =>
      var url := found.row.photoUrl;
      var destroyed := [FindCall(id), DestroyCall(url)];
      match DestroyResult(url, env.destroy)
      case Fatal => Run(Err(Exited), w, destroyed)
      case DestroyErr(reason) => Run(Err(StorageFailed(reason)), w, destroyed)
      case DestroyOk =>
        var d := DeleteRow(w.photos, found.row, found.row.id, env.writeFails);
        Run(FromDb(d.result), World(d.rows, w.nextId, BlobsAfterDestroy(w.blobs, url, env.destroy)),
            [FindCall(id), DestroyCall(url), DeleteCall(found.row.id)])
  }

  // ---- the consistency invariant ----

  /** Every row's URL names a stored image, and no two rows name the same one. */
  predicate Consistent(w: World) {
    Stored(w.photos, w.blobs) && ImagesDistinct(w.photos)
  }

  /** Every row's URL names a public id that is in the store. */
  predicate Stored(rows: map<nat, Photo>, blobs: set<string>) {
    StoredBy(rows, blobs, PublicIdOfUrl)
  }

  /** No two rows name the same image. */
  predicate ImagesDistinct(rows: map<nat, Photo>) {
    DistinctBy(rows, PublicIdOfUrl)
  }

  /* The two halves of the invariant for any way `resolve` of naming the image behind a URL. The
     lemmas that only put or remove rows are proved at this level, where how a URL is parsed plays
     no part. */

  predicate StoredBy(rows: map<nat, Photo>, blobs: set<string>, resolve: string -> Option<string>) {
    forall k | k in rows :: resolve(rows[k].photoUrl).Some? && resolve(rows[k].photoUrl).value in blobs
  }

  predicate DistinctBy(rows: map<nat, Photo>, resolve: string -> Option<string>) {
    forall j, k | j in rows && k in rows && j != k :: resolve(rows[j].photoUrl) != resolve(rows[k].photoUrl)
  }

  /** A UUID that names no stored image yet. */
  predicate Fresh(w: World, uuid: UuidText) {
    PublicIdPath(uuid) !in w.blobs
  }

  // ---- properties of Create ----

  /** Invalid input is refused before the file is opened: no call at all, nothing changes. */
  lemma CreateValidatesFirst(w: World, cloud: CloudName, input: PhotoCreateInput, uuid: UuidText, env: Env)
    requires ValidatePhotoCreate(input.(photoUrl := Placeholder)) != []
    ensures var run := CreateFlow(w, cloud, input, uuid, env);
      run.result == Err(Invalid(ValidatePhotoCreate(input.(photoUrl := Placeholder)))) && run.after == w && run.calls == []
  {
  }

  /** The input's own photo URL plays no part: a request without one is accepted exactly like one
      with it. */
  lemma CreateIgnoresInputUrl(w: World, cloud: CloudName, input: PhotoCreateInput, url: string, uuid: UuidText, env: Env)
    ensures CreateFlow(w, cloud, input, uuid, env) == CreateFlow(w, cloud, input.(photoUrl := url), uuid, env)
  {
  }

  /** An upload the API declined in its response body hands the insert the empty URL, which the
      BeforeCreate hook refuses: no row, no image, and the caller is told the photo URL is
      missing. */
  lemma CreateUploadDeclinedRefusedByHook(w: World, cloud: CloudName, input: PhotoCreateInput, uuid: UuidText, env: Env)
    requires ValidatePhotoCreate(input.(photoUrl := Placeholder)) == []
    requires env.fileOpens && env.upload.UploadDeclined?
    ensures var run := CreateFlow(w, cloud, input, uuid, env);
      && run.result.Err? && run.result.error.DbFailed? && run.result.error.error.HookRejected?
      && "photo URL is required" in run.result.error.error.violations
      && run.after == w
      && run.calls == [UploadCall(PublicIdPath(uuid)), InsertCall]
  {
    var p := Photo(0, input.title, input.caption, "", input.userId);
    assert "photo URL is required" in ValidatePhotoCreate(PhotoCreateInput(p.title, p.caption, p.photoUrl, p.userId));
  }

  /** A failed upload leaves no row and no image behind. */
  lemma CreateUploadFailureLeavesNothing(w: World, cloud: CloudName, input: PhotoCreateInput, uuid: UuidText, env: Env)
    requires env.upload.UploadRefused?
    ensures var run := CreateFlow(w, cloud, input, uuid, env); run.result.Err? && run.after == w
  {
  }

  /** A created photo is stored under the next id with the input's title, caption and owner and
      the URL of the image just uploaded under "photos/<uuid>". */
  lemma CreateStoresUpload(w: World, cloud: CloudName, input: PhotoCreateInput, uuid: UuidText, env: Env)
    requires CreateFlow(w, cloud, input, uuid, env).result.Ok?
    ensures var run := CreateFlow(w, cloud, input, uuid, env);
      && var p := run.result.value;
      && p.id == w.nextId && p.title == input.title && p.caption == input.caption && p.userId == input.userId
      && PublicIdOfUrl(p.photoUrl) == Some(PublicIdPath(uuid))
      && run.after.photos == w.photos[w.nextId := p] && run.after.nextId == w.nextId + 1
      && run.after.blobs == w.blobs + {PublicIdPath(uuid)}
      && run.calls == [UploadCall(PublicIdPath(uuid)), InsertCall]
  {
  }

  /** When the insert fails after the upload succeeded, the uploaded image stays in the store with
      no row pointing at it: nothing undoes the upload. */
  lemma CreateInsertFailureOrphansUpload(w: World, cloud: CloudName, input: PhotoCreateInput, uuid: UuidText, env: Env)
    requires ValidatePhotoCreate(input.(photoUrl := Placeholder)) == []
    requires env.fileOpens && env.upload.Uploaded? && env.writeFails
    ensures var run := CreateFlow(w, cloud, input, uuid, env);
      && run.result == Err(DbFailed(ConnectionFailed))
      && run.after.photos == w.photos && PublicIdPath(uuid) in run.after.blobs
      && run.calls == [UploadCall(PublicIdPath(uuid)), InsertCall]
  {
  }

  /** Create keeps every row pointing at its own stored image, whatever the outcome. */
  lemma CreateKeepsConsistent(w: World, cloud: CloudName, input: PhotoCreateInput, uuid: UuidText, env: Env)
    requires Consistent(w) && PhotosKeyed(w.photos, w.nextId) && Fresh(w, uuid)
    ensures Consistent(CreateFlow(w, cloud, input, uuid, env).after)
  {
    var run := CreateFlow(w, cloud, input, uuid, env);
    if run.result.Ok? {
      CreateStoresUpload(w, cloud, input, uuid, env);
      var p := run.result.value;
      assert w.nextId !in w.photos;
      assert Consistent(World(w.photos[w.nextId := p], w.nextId + 1, w.blobs + {PublicIdPath(uuid)})) by {
        ConsistentPut(w, w.nextId, p, w.blobs + {PublicIdPath(uuid)}, w.nextId + 1);
      }
    }
  }

  /** Putting one row in place, with a stored image no other row uses, keeps the world consistent
      as long as every other row's image is still stored. */
  lemma ConsistentPut(w: World, k0: nat, row: Photo, blobs: set<string>, nextId: nat)
    requires Consistent(w)
    requires PublicIdOfUrl(row.photoUrl).Some? && PublicIdOfUrl(row.photoUrl).value in blobs
    requires forall k | k in w.photos && k != k0 ::
      PublicIdOfUrl(w.photos[k].photoUrl).value in blobs && PublicIdOfUrl(w.photos[k].photoUrl) != PublicIdOfUrl(row.photoUrl)
    ensures Consistent(World(w.photos[k0 := row], nextId, blobs))
  {
    PutKeepsInvariant(w.photos, w.blobs, k0, row, blobs, PublicIdOfUrl);
  }

  lemma PutKeepsInvariant(rows: map<nat, Photo>, blobs0: set<string>, k0: nat, row: Photo, blobs: set<string>,
                          resolve: string -> Option<string>)
    requires StoredBy(rows, blobs0, resolve) && DistinctBy(rows, resolve)
    requires resolve(row.photoUrl).Some? && resolve(row.photoUrl).value in blobs
    requires forall k | k in rows && k != k0 ::
      resolve(rows[k].photoUrl).value in blobs && resolve(rows[k].photoUrl) != resolve(row.photoUrl)
    ensures StoredBy(rows[k0 := row], blobs, resolve) && DistinctBy(rows[k0 := row], resolve)
  {
    var a := rows[k0 := row];
    forall k | k in a
      ensures resolve(a[k].photoUrl).Some? && resolve(a[k].photoUrl).value in blobs
    {
      if k != k0 {
        assert a[k] == rows[k];
      }
    }
    forall j, k | j in a && k in a && j != k
      ensures resolve(a[j].photoUrl) != resolve(a[k].photoUrl)
    {
      if j == k0 {
        assert a[k] == rows[k];
      } else if k == k0 {
        assert a[j] == rows[j];
      } else {
        assert a[j] == rows[j] && a[k] == rows[k];
      }
    }
  }

  // ---- properties of Update ----

  /** Updating an id with no row reads once and does nothing else. */
  lemma UpdateMissingDoesNothing(w: World, users: map<nat, User>, cloud: CloudName, input: PhotoUpdateInput,
                                 hasFile: bool, uuid: UuidText, env: Env)
    requires input.id < Uint64Modulus && !env.readFails
    requires !(0 <= IntOf(input.id) && IntOf(input.id) as nat in w.photos)
    ensures var run := UpdateFlow(w, users, cloud, input, hasFile, uuid, env);
      run.result == Err(DbFailed(RecordNotFound)) && run.after == w && run.calls == [FindCall(IntOf(input.id))]
  {
  }

  /** Without a new file the store is never called, and the row keeps its URL while taking the
      new title and caption. */
  lemma UpdateWithoutFileKeepsImage(w: World, users: map<nat, User>, cloud: CloudName, input: PhotoUpdateInput,
                                    uuid: UuidText, env: Env)
    requires input.id <= MaxInt64 && input.id in w.photos && !env.readFails
    ensures var run := UpdateFlow(w, users, cloud, input, false, uuid, env);
      && run.after.blobs == w.blobs
      && run.calls == [FindCall(input.id), UpdateCall(input.id)]
      && run.after.photos.Keys == w.photos.Keys
      && run.after.photos[input.id].photoUrl == w.photos[input.id].photoUrl
      && (run.result.Ok? ==>
            run.after.photos[input.id].title == input.title && run.after.photos[input.id].caption == input.caption)
  {
  }

  /** An update with a file, of a row that exists, goes on to replace that row's image. */
  lemma UpdateReplacesFoundImage(w: World, users: map<nat, User>, cloud: CloudName, input: PhotoUpdateInput,
                                 uuid: UuidText, env: Env)
    requires input.id <= MaxInt64 && input.id in w.photos && !env.readFails
    ensures UpdateFlow(w, users, cloud, input, true, uuid, env)
         == ReplaceImage(w, cloud, input, w.photos[input.id].photoUrl, uuid, env, FindCall(input.id))
  {
  }

  /** Once the file is valid, opens and the upload raised no Go error, the row is rewritten with
      the URL the helper returned; the new image is stored when the upload really stored it. */
  lemma ReplaceImageRewrites(w: World, cloud: CloudName, input: PhotoUpdateInput, oldUrl: string, uuid: UuidText,
                             env: Env, find: Call)
    requires ValidatePhotoUpdate(input.(photoUrl := Placeholder)) == [] && env.fileOpens && !env.upload.UploadRefused?
    ensures ReplaceImage(w, cloud, input, oldUrl, uuid, env, find)
         == RewriteRow(w.(blobs := BlobsAfterUpload(w.blobs, uuid, env.upload)), input, oldUrl,
                       UploadResult(cloud, uuid, env.upload).value, env, find, UploadCall(PublicIdPath(uuid)))
  {
  }

  /** An upload the API declined in its response body hands the row the empty URL, which the
      BeforeUpdate hook refuses: the row keeps its image, nothing is destroyed, and the caller is
      told the photo URL is missing. */
  lemma UpdateUploadDeclinedRefusedByHook(w: World, users: map<nat, User>, cloud: CloudName, input: PhotoUpdateInput,
                                          uuid: UuidText, env: Env)
    requires input.id <= MaxInt64 && input.id in w.photos && !env.readFails
    requires ValidatePhotoUpdate(input.(photoUrl := Placeholder)) == [] && env.fileOpens && env.upload.UploadDeclined?
    ensures var run := UpdateFlow(w, users, cloud, input, true, uuid, env);
      && run.result.Err? && run.result.error.DbFailed? && run.result.error.error.HookRejected?
      && "photo URL is required" in run.result.error.error.violations
      && run.after == w
      && run.calls == [FindCall(input.id), UploadCall(PublicIdPath(uuid)), UpdateCall(input.id)]
  {
    var find := FindCall(input.id);
    assert IntOf(input.id) == input.id;
    UpdateReplacesFoundImage(w, users, cloud, input, uuid, env);
    ReplaceImageRewrites(w, cloud, input, w.photos[input.id].photoUrl, uuid, env, find);
    assert w.(blobs := BlobsAfterUpload(w.blobs, uuid, env.upload)) == w;
    var p := Photo(input.id, input.title, input.caption, "", input.userId);
    assert "photo URL is required" in ValidatePhotoUpdate(PhotoUpdateInput(p.id, p.title, p.caption, p.photoUrl, p.userId));
  }

  /** Rewriting the row is one update call, followed by a destroy of the old image exactly when
      the update succeeded, in which case the row holds the uploaded URL. */
  lemma RewriteRowSteps(w: World, input: PhotoUpdateInput, oldUrl: string, url: string, env: Env, find: Call, upload: Call)
    ensures var run := RewriteRow(w, input, oldUrl, url, env, find, upload);
      var u := UpdatePhoto(w.photos, Photo(input.id, input.title, input.caption, url, input.userId), env.writeFails);
      && (u.result.Err? ==> run.calls == [find, upload, UpdateCall(input.id)])
      && (u.result.Ok? ==> run.calls == [find, upload, UpdateCall(input.id), DestroyCall(oldUrl)])
      && (u.result.Ok? && input.id in w.photos ==> input.id in run.after.photos && run.after.photos[input.id].photoUrl == url)
  {
  }

  /** The old image is destroyed only after the row was rewritten with the new URL: whenever the
      calls include a destroy, they are exactly find, upload, update and the destroy of the URL
      the row held, and the row now points at the image just uploaded. */
  lemma UpdateDestroysLast(w: World, users: map<nat, User>, cloud: CloudName, input: PhotoUpdateInput,
                           hasFile: bool, uuid: UuidText, env: Env)
    requires input.id < Uint64Modulus
    ensures var run := UpdateFlow(w, users, cloud, input, hasFile, uuid, env);
      forall i | 0 <= i < |run.calls| && run.calls[i].DestroyCall? ::
        && hasFile && input.id in w.photos
        && run.calls == [FindCall(input.id), UploadCall(PublicIdPath(uuid)), UpdateCall(input.id),
                         DestroyCall(w.photos[input.id].photoUrl)]
        && input.id in run.after.photos
        && PublicIdOfUrl(run.after.photos[input.id].photoUrl) == Some(PublicIdPath(uuid))
  {
    var run := UpdateFlow(w, users, cloud, input, hasFile, uuid, env);
    var found := FindPhoto(w.photos, users, IntOf(input.id), env.readFails);
    if found.Err? {
      assert run.calls == [FindCall(IntOf(input.id))];
    } else if !hasFile {
      assert run.calls == [FindCall(IntOf(input.id)), UpdateCall(input.id)];
    } else {
      assert IntOf(input.id) == input.id;
      var find := FindCall(input.id);
      var oldUrl := w.photos[input.id].photoUrl;
      UpdateReplacesFoundImage(w, users, cloud, input, uuid, env);
      if ValidatePhotoUpdate(input.(photoUrl := Placeholder)) != [] || !env.fileOpens {
        assert run.calls == [find];
      } else if env.upload.UploadRefused? {
        assert run.calls == [find, UploadCall(PublicIdPath(uuid))];
      } else {
        ReplaceImageRewrites(w, cloud, input, oldUrl, uuid, env, find);
        var url := UploadResult(cloud, uuid, env.upload).value;
        var w1 := w.(blobs := BlobsAfterUpload(w.blobs, uuid, env.upload));
        RewriteRowSteps(w1, input, oldUrl, url, env, find, UploadCall(PublicIdPath(uuid)));
        if env.upload.UploadDeclined? {
          assert PhotoBeforeUpdate(Photo(input.id, input.title, input.caption, url, input.userId)) != [];
        }
      }
    }
  }

  /** When the old image cannot be destroyed the row already carries the new URL and the call
      still reports the error: both images stay in the store. */
  lemma UpdateDestroyFailureKeepsNewRow(w: World, users: map<nat, User>, cloud: CloudName, input: PhotoUpdateInput,
                                        uuid: UuidText, env: Env)
    requires input.id <= MaxInt64 && input.id in w.photos && !env.readFails && !env.writeFails
    requires ValidatePhotoUpdate(input.(photoUrl := Placeholder)) == []
    requires env.fileOpens && env.upload.Uploaded? && env.destroy.DestroyRefused?
    requires Consistent(w)
    ensures var run := UpdateFlow(w, users, cloud, input, true, uuid, env);
      && run.result == Err(StorageFailed(env.destroy.reason))
      && input.id in run.after.photos
      && PublicIdOfUrl(run.after.photos[input.id].photoUrl) == Some(PublicIdPath(uuid))
      && PublicIdPath(uuid) in run.after.blobs
      && PublicIdOfUrl(w.photos[input.id].photoUrl).value in run.after.blobs
  {
    var run := UpdateFlow(w, users, cloud, input, true, uuid, env);
    assert IntOf(input.id) == input.id;
    var oldUrl := w.photos[input.id].photoUrl;
    var url := UploadResult(cloud, uuid, env.upload).value;
    var w1 := w.(blobs := w.blobs + {PublicIdPath(uuid)});
    UpdateReplacesFoundImage(w, users, cloud, input, uuid, env);
    ReplaceImageRewrites(w, cloud, input, oldUrl, uuid, env, FindCall(input.id));
    assert run == RewriteRow(w1, input, oldUrl, url, env, FindCall(input.id), UploadCall(PublicIdPath(uuid)));
    assert FileNameFromUrl(oldUrl).Some?;
    RewriteRowDestroyRefused(w1, input, oldUrl, url, env, FindCall(input.id), UploadCall(PublicIdPath(uuid)));
  }

  /** A row rewrite whose update succeeds but whose destroy is refused keeps the new URL in the
      row and leaves the store as it was. */
  lemma RewriteRowDestroyRefused(w: World, input: PhotoUpdateInput, oldUrl: string, url: string, env: Env,
                                 find: Call, upload: Call)
    requires input.id in w.photos && !env.writeFails && env.destroy.DestroyRefused?
    requires FileNameFromUrl(oldUrl).Some?
    requires PhotoBeforeUpdate(Photo(input.id, input.title, input.caption, url, input.userId)) == []
    ensures var run := RewriteRow(w, input, oldUrl, url, env, find, upload);
      && run.result == Err(StorageFailed(env.destroy.reason))
      && input.id in run.after.photos && run.after.photos[input.id].photoUrl == url
      && run.after.blobs == w.blobs
  {
    assert DestroyResult(oldUrl, env.destroy) == DestroyErr(env.destroy.reason);
  }

  /** Adding stored images keeps the world consistent. */
  lemma ConsistentWithMoreBlobs(w: World, blobs: set<string>)
    requires Consistent(w) && w.blobs <= blobs
    ensures Consistent(w.(blobs := blobs))
  {
  }

  /** Rewriting rows without touching their URLs keeps the world consistent. */
  lemma ConsistentSameUrls(w: World, rows: map<nat, Photo>)
    requires Consistent(w) && rows.Keys == w.photos.Keys
    requires forall k :: k in rows ==> rows[k].photoUrl == w.photos[k].photoUrl
    ensures Consistent(w.(photos := rows))
  {
    var a := w.(photos := rows);
    forall j, k | j in a.photos && k in a.photos && j != k
      ensures PublicIdOfUrl(a.photos[j].photoUrl) != PublicIdOfUrl(a.photos[k].photoUrl)
    {
      assert a.photos[j].photoUrl == w.photos[j].photoUrl && a.photos[k].photoUrl == w.photos[k].photoUrl;
    }
  }

  /** The row an update writes keeps pointing at a stored image that no other row uses. */
  lemma UpdateKeepsConsistent(w: World, users: map<nat, User>, cloud: CloudName, input: PhotoUpdateInput,
                              hasFile: bool, uuid: UuidText, env: Env)
    requires input.id < Uint64Modulus
    requires Consistent(w) && Fresh(w, uuid)
    ensures Consistent(UpdateFlow(w, users, cloud, input, hasFile, uuid, env).after)
  {
    var run := UpdateFlow(w, users, cloud, input, hasFile, uuid, env);
    var found := FindPhoto(w.photos, users, IntOf(input.id), env.readFails);
    if found.Ok? {
      var id := input.id;
      assert IntOf(id) == id;
      var oldUrl := w.photos[id].photoUrl;
      if !hasFile {
        var u := UpdatePhoto(w.photos, Photo(id, input.title, input.caption, oldUrl, input.userId), env.writeFails);
        assert run.after == w.(photos := u.rows);
        assert Consistent(w.(photos := u.rows)) by { ConsistentSameUrls(w, u.rows); }
      } else {
        var replaced := ReplaceImage(w, cloud, input, oldUrl, uuid, env, FindCall(id));
        assert run == replaced by { UpdateReplacesFoundImage(w, users, cloud, input, uuid, env); }
        assert Consistent(replaced.after) by {
          ReplaceImageKeepsConsistent(w, cloud, input, oldUrl, uuid, env, FindCall(id));
        }
      }
    }
  }

  /** The file-replacing part of an update keeps the world consistent. */
  lemma ReplaceImageKeepsConsistent(w: World, cloud: CloudName, input: PhotoUpdateInput, oldUrl: string, uuid: UuidText,
                                    env: Env, find: Call)
    requires Consistent(w) && Fresh(w, uuid) && input.id in w.photos && oldUrl == w.photos[input.id].photoUrl
    ensures Consistent(ReplaceImage(w, cloud, input, oldUrl, uuid, env, find).after)
  {
    if ValidatePhotoUpdate(input.(photoUrl := Placeholder)) == [] && env.fileOpens && env.upload.Uploaded? {
      ReplaceImageRewrites(w, cloud, input, oldUrl, uuid, env, find);
      var url := UploadResult(cloud, uuid, env.upload).value;
      RewriteRowKeepsConsistent(w, input, oldUrl, url, uuid, env, find, UploadCall(PublicIdPath(uuid)));
    } else if ValidatePhotoUpdate(input.(photoUrl := Placeholder)) == [] && env.fileOpens && env.upload.UploadDeclined? {
      ReplaceImageRewrites(w, cloud, input, oldUrl, uuid, env, find);
      assert PhotoBeforeUpdate(Photo(input.id, input.title, input.caption, "", input.userId)) != [];
      assert ReplaceImage(w, cloud, input, oldUrl, uuid, env, find).after == w;
    }
  }

  /** Rewriting the row with the fresh upload keeps the world consistent, whether or not the
      write and the destroy succeed. */
  lemma RewriteRowKeepsConsistent(w: World, input: PhotoUpdateInput, oldUrl: string, url: string, uuid: UuidText,
                                  env: Env, find: Call, upload: Call)
    requires Consistent(w) && Fresh(w, uuid) && input.id in w.photos && oldUrl == w.photos[input.id].photoUrl
    requires PublicIdOfUrl(url) == Some(PublicIdPath(uuid))
    ensures Consistent(RewriteRow(w.(blobs := w.blobs + {PublicIdPath(uuid)}), input, oldUrl, url, env, find, upload).after)
  {
    var w1 := w.(blobs := w.blobs + {PublicIdPath(uuid)});
    var u := UpdatePhoto(w.photos, Photo(input.id, input.title, input.caption, url, input.userId), env.writeFails);
    if u.result.Ok? {
      BlobsAfterDestroyRemovesAtMostOne(w1.blobs, oldUrl, env.destroy);
      RewrittenRowConsistent(w, input.id, u.rows, uuid, BlobsAfterDestroy(w1.blobs, oldUrl, env.destroy));
    } else {
      ConsistentWithMoreBlobs(w, w1.blobs);
    }
  }

  /** The rewritten table, with the row at `id` naming the fresh upload, is consistent whether or
      not the old image went. */
  lemma RewrittenRowConsistent(w: World, id: nat, rows: map<nat, Photo>, uuid: UuidText, blobs: set<string>)
    requires Consistent(w) && Fresh(w, uuid) && id in w.photos
    requires rows.Keys == w.photos.Keys && forall k :: k in w.photos && k != id ==> rows[k] == w.photos[k]
    requires PublicIdOfUrl(rows[id].photoUrl) == Some(PublicIdPath(uuid))
    requires var newId := PublicIdPath(uuid);
      blobs == w.blobs + {newId} || blobs == (w.blobs + {newId}) - {PublicIdOfUrl(w.photos[id].photoUrl).value}
    ensures Consistent(World(rows, w.nextId, blobs))
  {
    RowsPut(w.photos, rows, id);
    UpdateRewriteConsistent(w, id, rows[id], uuid, blobs);
  }

  /** The step of UpdateKeepsConsistent where the row takes the fresh URL and the old image may go. */
  lemma UpdateRewriteConsistent(w: World, id: nat, row: Photo, uuid: UuidText, blobs: set<string>)
    requires Consistent(w) && Fresh(w, uuid) && id in w.photos
    requires PublicIdOfUrl(row.photoUrl) == Some(PublicIdPath(uuid))
    requires var newId := PublicIdPath(uuid);
      blobs == w.blobs + {newId} || blobs == (w.blobs + {newId}) - {PublicIdOfUrl(w.photos[id].photoUrl).value}
    ensures Consistent(World(w.photos[id := row], w.nextId, blobs))
  {
    var oldId := PublicIdOfUrl(w.photos[id].photoUrl).value;
    OthersKept(w.photos, w.blobs, id, oldId, PublicIdPath(uuid), blobs);
    ConsistentPut(w, id, row, blobs, w.nextId);
  }

  /** A map that differs from `m` only at `id` is `m` with that one entry replaced. */
  lemma RowsPut(m: map<nat, Photo>, rows: map<nat, Photo>, id: nat)
    requires id in m && rows.Keys == m.Keys
    requires forall k :: k in m && k != id ==> rows[k] == m[k]
    ensures rows == m[id := rows[id]]
  {
  }

  /** When one row's image is replaced by a fresh one, every other row's image is still stored
      and differs from the fresh one. */
  lemma OthersKept(rows: map<nat, Photo>, blobs0: set<string>, id: nat, oldId: string, newId: string, blobs: set<string>)
    requires Stored(rows, blobs0) && ImagesDistinct(rows)
    requires id in rows && PublicIdOfUrl(rows[id].photoUrl) == Some(oldId)
    requires newId !in blobs0
    requires blobs == blobs0 + {newId} || blobs == (blobs0 + {newId}) - {oldId}
    ensures forall k | k in rows && k != id ::
      PublicIdOfUrl(rows[k].photoUrl).value in blobs && PublicIdOfUrl(rows[k].photoUrl) != Some(newId)
  {
    forall k | k in rows && k != id
      ensures PublicIdOfUrl(rows[k].photoUrl).value in blobs && PublicIdOfUrl(rows[k].photoUrl) != Some(newId)
    {
      assert PublicIdOfUrl(rows[k].photoUrl) != PublicIdOfUrl(rows[id].photoUrl);
    }
  }


  // ---- properties of Delete ----

  /** Deleting an id with no row never calls the store. */
  lemma DeleteMissingSkipsStore(w: World, users: map<nat, User>, id: int, env: Env)
    requires !(0 <= id && id as nat in w.photos)
    ensures var run := DeleteFlow(w, users, id, env); run.after == w && run.calls == [FindCall(id)] && run.result.Err?
  {
  }

  /** The row is deleted only after the store accepted destroying its image; when the store
      refuses, the row and the image both stay. */
  lemma DeleteDestroysFirst(w: World, users: map<nat, User>, id: int, env: Env)
    requires 0 <= id && id as nat in w.photos && !env.readFails
    ensures var run := DeleteFlow(w, users, id, env);
      var url := w.photos[id as nat].photoUrl;
      && (DestroyResult(url, env.destroy) == DestroyOk ==>
            run.calls == [FindCall(id), DestroyCall(url), DeleteCall(w.photos[id as nat].id)])
      && (DestroyResult(url, env.destroy) != DestroyOk ==>
            run.calls == [FindCall(id), DestroyCall(url)] && run.after == w && run.result.Err?)
  {
  }

  /** Removing a row, with or without its image, keeps the world consistent. */
  lemma ConsistentWithout(w: World, k0: nat, blobs: set<string>)
    requires Consistent(w) && k0 in w.photos
    requires blobs == w.blobs || blobs == w.blobs - {PublicIdOfUrl(w.photos[k0].photoUrl).value}
    ensures Consistent(World(w.photos - {k0}, w.nextId, blobs))
  {
    var a := World(w.photos - {k0}, w.nextId, blobs);
    forall k | k in a.photos
      ensures PublicIdOfUrl(a.photos[k].photoUrl).Some? && PublicIdOfUrl(a.photos[k].photoUrl).value in a.blobs
    {
      assert k != k0 && a.photos[k] == w.photos[k];
      assert PublicIdOfUrl(w.photos[k].photoUrl) != PublicIdOfUrl(w.photos[k0].photoUrl);
    }
  }

  /** Delete keeps the world consistent except in one case: the image was destroyed and then the
      row delete failed. That row is left pointing at an image that no longer exists. */
  lemma DeleteKeepsConsistent(w: World, users: map<nat, User>, id: int, env: Env)
    requires Consistent(w) && PhotosKeyed(w.photos, w.nextId)
    requires !(env.destroy.DestroyAccepted? && env.writeFails)
    ensures Consistent(DeleteFlow(w, users, id, env).after)
  {
    var run := DeleteFlow(w, users, id, env);
    var found := FindPhoto(w.photos, users, id, env.readFails);
    if found.Ok? && DestroyResult(found.value.row.photoUrl, env.destroy) == DestroyOk {
      var k0 := id as nat;
      var url := w.photos[k0].photoUrl;
      assert found.value.row == w.photos[k0] && w.photos[k0].id == k0;
      var blobs := BlobsAfterDestroy(w.blobs, url, env.destroy);
      assert blobs == w.blobs || blobs == w.blobs - {PublicIdOfUrl(url).value};
      if env.writeFails {
        assert run.after == World(w.photos, w.nextId, blobs);
        assert blobs == w.blobs;
      } else {
        assert run.after == World(w.photos - {k0}, w.nextId, blobs);
        ConsistentWithout(w, k0, blobs);
      }
    }
  }

  /** The exception, exhibited: with the image destroyed and the row delete failing, the row
      survives and its image is gone. */
  lemma DeleteWriteFailureDangles(w: World, users: map<nat, User>, id: int, env: Env)
    requires Consistent(w) && PhotosKeyed(w.photos, w.nextId)
    requires 0 <= id && id as nat in w.photos && !env.readFails
    requires env.destroy.DestroyAccepted? && env.writeFails
    ensures var run := DeleteFlow(w, users, id, env);
      && run.result == Err(DbFailed(ConnectionFailed))
      && id as nat in run.after.photos
      && PublicIdOfUrl(run.after.photos[id as nat].photoUrl).Some?
      && PublicIdOfUrl(run.after.photos[id as nat].photoUrl).value !in run.after.blobs
      && !Consistent(run.after)
  {
    var k0 := id as nat;
    var url := w.photos[k0].photoUrl;
    assert PublicIdOfUrl(url).Some?;
    var pid := PublicIdOfUrl(url).value;
    var after := World(w.photos, w.nextId, w.blobs - {pid});
    var run := DeleteFlow(w, users, id, env);
    assert run.result == Err(DbFailed(ConnectionFailed)) && run.after == after by {
      assert FindPhoto(w.photos, users, id, false) == Ok(Loaded(w.photos[k0], OwnerOf(users, w.photos[k0].userId)));
      assert DestroyResult(url, env.destroy) == DestroyOk;
      assert w.photos[k0].id == k0;
      assert DeleteRow(w.photos, w.photos[k0], w.photos[k0].id, true) == Written(Err(ConnectionFailed), w.photos);
    }
    assert k0 in after.photos && PublicIdOfUrl(after.photos[k0].photoUrl).value !in after.blobs;
  }

  /** A destroy the API declined in its response body reports no error, so the row is deleted
      and the call succeeds while the image stays in the store with no row naming it. */
  lemma DeleteDeclinedOrphansImage(w: World, users: map<nat, User>, id: int, env: Env)
    requires Consistent(w) && PhotosKeyed(w.photos, w.nextId)
    requires 0 <= id && id as nat in w.photos && !env.readFails && !env.writeFails
    requires env.destroy.DestroyDeclined?
    ensures var run := DeleteFlow(w, users, id, env);
      && run.result.Ok?
      && id as nat !in run.after.photos
      && PublicIdOfUrl(w.photos[id as nat].photoUrl).value in run.after.blobs
      && run.after.blobs == w.blobs
  {
    var k0 := id as nat;
    var url := w.photos[k0].photoUrl;
    assert FindPhoto(w.photos, users, id, false) == Ok(Loaded(w.photos[k0], OwnerOf(users, w.photos[k0].userId)));
    assert PublicIdOfUrl(url).Some?;
    assert DestroyResult(url, env.destroy) == DestroyOk;
    assert w.photos[k0].id == k0;
  }

  // ---- the service ----

  class PhotoSvc {
    const repo: PhotoRepo
    const store: BlobStore

    constructor (repo: PhotoRepo, store: BlobStore)
      ensures this.repo == repo && this.store == store
    {
      this.repo := repo;
      this.store := store;
    }

    /** The part of the world the photo service changes. */
    ghost function State(): World
      reads repo.db, store
    {
      World(repo.db.photos, repo.db.nextPhotoId, store.blobs)
    }

    method GetAll(readFails: bool) returns (r: Result<seq<Loaded<Photo>>, DbError>)
      ensures r == FindAllPhotos(repo.db.photos, repo.db.nextPhotoId, repo.db.users, readFails)
    {
      r := repo.FindAll(readFails);
    }

    method GetOneById(id: int, readFails: bool) returns (r: Result<Loaded<Photo>, DbError>)
      ensures r == FindPhoto(repo.db.photos, repo.db.users, id, readFails)
    {
      r := repo.FindById(id, readFails);
    }

    method Create(input: PhotoCreateInput, uuid: UuidText, env: Env) returns (r: Result<Photo, PhotoFailure>, ghost calls: seq<Call>)
      requires repo.db.Valid()
      modifies repo.db`photos, repo.db`nextPhotoId, store
      ensures repo.db.Valid()
      ensures var run := CreateFlow(old(State()), store.cloud, input, uuid, env);
        r == run.result && State() == run.after && calls == run.calls
    {
      calls := [];
      var errs := ValidatePhotoCreate(input.(photoUrl := Placeholder));
      if errs != [] {
        return Err(Invalid(errs)), calls;
      }
      if !env.fileOpens {
        return Err(FileUnreadable), calls;
      }
      var up := store.Upload(uuid, env.upload);
      calls := [UploadCall(PublicIdPath(uuid))];
      if up.Err? {
        return Err(StorageFailed(up.error)), calls;
      }
      var saved := repo.Save(Photo(0, input.title, input.caption, up.value, input.userId), env.writeFails);
      calls := [UploadCall(PublicIdPath(uuid)), InsertCall];
      r := FromDb(saved);
    }

    method Update(input: PhotoUpdateInput, hasFile: bool, uuid: UuidText, env: Env)
      returns (r: Result<Photo, PhotoFailure>, ghost calls: seq<Call>)
      requires input.id < Uint64Modulus
      requires repo.db.Valid()
      modifies repo.db`photos, store
      ensures repo.db.Valid()
      ensures var run := UpdateFlow(old(State()), old(repo.db.users), store.cloud, input, hasFile, uuid, env);
        r == run.result && State() == run.after && calls == run.calls
    {
      var found := repo.FindById(IntOf(input.id), env.readFails);
      calls := [FindCall(IntOf(input.id))];
      if found.Err? {
        return Err(DbFailed(found.error)), calls;
      }
      var oldUrl := found.value.row.photoUrl;
      if hasFile {
        r, calls := ReplaceStoredImage(input, oldUrl, uuid, env, FindCall(IntOf(input.id)));
      } else {
        var updated := repo.Update(Photo(input.id, input.title, input.caption, oldUrl, input.userId), env.writeFails);
        calls := [FindCall(IntOf(input.id)), UpdateCall(input.id)];
        r := FromDb(updated);
      }
    }

    /** The part of Update that runs when a new file came with the request. */
    method ReplaceStoredImage(input: PhotoUpdateInput, oldUrl: string, uuid: UuidText, env: Env, ghost find: Call)
      returns (r: Result<Photo, PhotoFailure>, ghost calls: seq<Call>)
      requires repo.db.Valid()
      modifies repo.db`photos, store
      ensures repo.db.Valid()
      ensures var run := ReplaceImage(old(State()), store.cloud, input, oldUrl, uuid, env, find);
        r == run.result && State() == run.after && calls == run.calls
    {
      calls := [find];
      var errs := ValidatePhotoUpdate(input.(photoUrl := Placeholder));
      if errs != [] {
        return Err(Invalid(errs)), calls;
      }
      if !env.fileOpens {
        return Err(FileUnreadable), calls;
      }
      var up := store.Upload(uuid, env.upload);
      calls := [find, UploadCall(PublicIdPath(uuid))];
      if up.Err? {
        return Err(StorageFailed(up.error)), calls;
      }
      var updated := repo.Update(Photo(input.id, input.title, input.caption, up.value, input.userId), env.writeFails);
      calls := [find, UploadCall(PublicIdPath(uuid)), UpdateCall(input.id)];
      if updated.Err? {
        return Err(DbFailed(updated.error)), calls;
      }
      var destroyed := store.Destroy(oldUrl, env.destroy);
      calls := [find, UploadCall(PublicIdPath(uuid)), UpdateCall(input.id), DestroyCall(oldUrl)];
      match destroyed
      case DestroyOk => r := Ok(updated.value);
      case DestroyErr(reason) => r := Err(StorageFailed(reason));
      case Fatal => r := Err(Exited);
    }

    method Delete(id: int, env: Env) returns (r: Result<Photo, PhotoFailure>, ghost calls: seq<Call>)
      requires repo.db.Valid()
      modifies repo.db`photos, store
      ensures repo.db.Valid()
      ensures var run := DeleteFlow(old(State()), old(repo.db.users), id, env);
        r == run.result && State() == run.after && calls == run.calls
    {
      var found := repo.FindById(id, env.readFails);
      calls := [FindCall(id)];
      if found.Err? {
        return Err(DbFailed(found.error)), calls;
      }
      var url := found.value.row.photoUrl;
      var destroyed := store.Destroy(url, env.destroy);
      calls := [FindCall(id), DestroyCall(url)];
      match destroyed
      case Fatal => r := Err(Exited);
      case DestroyErr(reason) => r := Err(StorageFailed(reason));
      case DestroyOk =>
        var deleted := repo.Delete(found.value.row, env.writeFails);
        calls := [FindCall(id), DestroyCall(url), DeleteCall(found.value.row.id)];
        r := FromDb(deleted);
    }
  }
}
