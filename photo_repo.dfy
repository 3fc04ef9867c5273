/** The photo repository (repositories/photo.go): reads join the owner's projection, writes go
    through the Photo hooks, and an update touches title, caption and URL only. */
module PhotoRepository {
  import opened Wrappers
  import opened Models
  import opened Database

  function LoadPhoto(rows: map<nat, Photo>, users: map<nat, User>, id: nat): Loaded<Photo>
    requires id in rows
  {
    Loaded(rows[id], OwnerOf(users, rows[id].userId))
  }

  /** FindAll: every row below the counter, each with its owner, in id order. */
  function FindAllPhotos(rows: map<nat, Photo>, nextId: nat, users: map<nat, User>, readFails: bool)
    : (r: Result<seq<Loaded<Photo>>, DbError>)
    ensures readFails <==> r.Err?
    ensures r.Ok? ==> forall i :: 0 <= i < |r.value| ==>
      r.value[i].row in rows.Values && r.value[i].user == OwnerOf(users, r.value[i].row.userId)
  {
    if readFails then Err(ConnectionFailed)
    else
      var ids := IdsBelowWhere(rows, nextId, (_: Photo) => true);
      Ok(seq(|ids|, i requires 0 <= i < |ids| => LoadPhoto(rows, users, ids[i])))
  }

  /** On a well-keyed table FindAll returns every row exactly once, in increasing id order. */
  lemma FindAllPhotosComplete(rows: map<nat, Photo>, nextId: nat, users: map<nat, User>)
    requires PhotosKeyed(rows, nextId)
    ensures var r := FindAllPhotos(rows, nextId, users, false);
      && |r.value| == |rows|
      && (forall k :: k in rows ==> exists i :: 0 <= i < |r.value| && r.value[i].row == rows[k])
      && (forall i, j :: 0 <= i < j < |r.value| ==> r.value[i].row.id < r.value[j].row.id)
  {
    var ids := IdsBelowWhere(rows, nextId, (_: Photo) => true);
    var rs := FindAllPhotos(rows, nextId, users, false).value;
    assert |rs| == |ids|;
    assert forall i | 0 <= i < |ids| :: rs[i].row == rows[ids[i]] && rs[i].row.id == ids[i];
    assert |ids| == |rows| by { AllIdsCount(rows, nextId, (_: Photo) => true); }
    forall k | k in rows
      ensures exists i :: 0 <= i < |rs| && rs[i].row == rows[k]
    {
      assert k in ids;
      var i :| 0 <= i < |ids| && ids[i] == k;
      assert rs[i].row == rows[k];
    }
    forall i, j | 0 <= i < j < |rs|
      ensures rs[i].row.id < rs[j].row.id
    {
    }
  }

  /** FindById: the row with that id and its owner, or record-not-found. */
  function FindPhoto(rows: map<nat, Photo>, users: map<nat, User>, id: int, readFails: bool)
    : (r: Result<Loaded<Photo>, DbError>)
    ensures r.Ok? <==> !readFails && 0 <= id && id as nat in rows
    ensures r.Ok? ==> r.value.row == rows[id as nat] && r.value.user == OwnerOf(users, rows[id as nat].userId)
    ensures !readFails && r.Err? ==> r.error == RecordNotFound
  {
    if readFails then Err(ConnectionFailed)
    else if 0 <= id && id as nat in rows then Ok(LoadPhoto(rows, users, id as nat))
    else Err(RecordNotFound)
  }

  /** Save: the BeforeCreate hook first, then an insert under the next id. */
  function SavePhoto(rows: map<nat, Photo>, nextId: nat, p: Photo, writeFails: bool): (s: Saved<Photo>)
    ensures s.result.Ok? <==> PhotoBeforeCreate(p) == [] && !writeFails
    ensures PhotoBeforeCreate(p) != [] ==> s.result == Err(HookRejected(PhotoBeforeCreate(p)))
    ensures s.result.Ok? ==>
      && s.result.value == p.(id := nextId)
      && s.rows == rows[nextId := s.result.value] && s.nextId == nextId + 1
    ensures s.result.Err? ==> s.rows == rows && s.nextId == nextId
  {
    var errs := PhotoBeforeCreate(p);
    if errs != [] then Saved(Err(HookRejected(errs)), rows, nextId)
    else if writeFails then Saved(Err(ConnectionFailed), rows, nextId)
    else
      var stored := p.(id := nextId);
      Saved(Ok(stored), rows[nextId := stored], nextId + 1)
  }

  /** Update: the BeforeUpdate hook checks the whole struct, then the row with `p.id` (if any) takes
      p's title, caption and URL; its owner and every other row are untouched. The struct passed in
      is returned as it was, whether or not a row matched. */
  function UpdatePhoto(rows: map<nat, Photo>, p: Photo, writeFails: bool): (w: Written<Photo>)
    ensures w.result.Ok? <==> PhotoBeforeUpdate(p) == [] && !writeFails
    ensures PhotoBeforeUpdate(p) != [] ==> w.result == Err(HookRejected(PhotoBeforeUpdate(p)))
    ensures w.result.Ok? ==> w.result.value == p
    ensures w.result.Err? ==> w.rows == rows
    ensures w.rows.Keys == rows.Keys
    ensures forall k :: k in rows && k != p.id ==> w.rows[k] == rows[k]
    ensures w.result.Ok? && p.id in rows ==>
      && w.rows[p.id].title == p.title && w.rows[p.id].caption == p.caption
      && w.rows[p.id].photoUrl == p.photoUrl
      && w.rows[p.id].id == rows[p.id].id && w.rows[p.id].userId == rows[p.id].userId
  {
    var errs := PhotoBeforeUpdate(p);
    if errs != [] then Written(Err(HookRejected(errs)), rows)
    else if writeFails then Written(Err(ConnectionFailed), rows)
    else if p.id in rows then
      Written(Ok(p), rows[p.id := rows[p.id].(title := p.title, caption := p.caption, photoUrl := p.photoUrl)])
    else Written(Ok(p), rows)
  }

  class PhotoRepo {
    const db: Db

    constructor (db: Db)
      ensures this.db == db
    {
      this.db := db;
    }

    method FindAll(readFails: bool) returns (r: Result<seq<Loaded<Photo>>, DbError>)
      ensures r == FindAllPhotos(db.photos, db.nextPhotoId, db.users, readFails)
    {
      r := FindAllPhotos(db.photos, db.nextPhotoId, db.users, readFails);
    }

    method FindById(id: int, readFails: bool) returns (r: Result<Loaded<Photo>, DbError>)
      ensures r == FindPhoto(db.photos, db.users, id, readFails)
    {
      r := FindPhoto(db.photos, db.users, id, readFails);
    }

    method Save(p: Photo, writeFails: bool) returns (r: Result<Photo, DbError>)
      requires db.Valid()
      modifies db`photos, db`nextPhotoId
      ensures db.Valid()
      ensures var s := SavePhoto(old(db.photos), old(db.nextPhotoId), p, writeFails);
        r == s.result && db.photos == s.rows && db.nextPhotoId == s.nextId
    {
      var s := SavePhoto(db.photos, db.nextPhotoId, p, writeFails);
      db.photos, db.nextPhotoId := s.rows, s.nextId;
      r := s.result;
    }

    method Update(p: Photo, writeFails: bool) returns (r: Result<Photo, DbError>)
      requires db.Valid()
      modifies db`photos
      ensures db.Valid()
      ensures var w := UpdatePhoto(old(db.photos), p, writeFails); r == w.result && db.photos == w.rows
    {
      var w := UpdatePhoto(db.photos, p, writeFails);
      db.photos := w.rows;
      r := w.result;
    }

    method Delete(p: Photo, writeFails: bool) returns (r: Result<Photo, DbError>)
      requires db.Valid()
      modifies db`photos
      ensures db.Valid()
      ensures var w := DeleteRow(old(db.photos), p, p.id, writeFails); r == w.result && db.photos == w.rows
    {
      var w := DeleteRow(db.photos, p, p.id, writeFails);
      db.photos := w.rows;
      r := w.result;
    }
  }
}
