/** The social-media repository (repositories/socialMedia.go): reads join the owner's projection,
    writes go through the SocialMedia hooks and the unique index on the URL, and an update changes
    name and URL only. A delete is GORM's soft delete: the row leaves every query but stays in the
    table, so its URL stays in the unique index. */
module SocialMediaRepository {
  import opened Wrappers
  import opened Models
  import opened Database

  const UrlColumn: string := "social_media_url"

  /** Is `url` already stored on a row other than `except`? An insert passes 0, which no row has. */
  predicate UrlTaken(rows: map<nat, SocialMedia>, url: string, except: nat) {
    exists k :: k in rows && k != except && rows[k].socialMediaUrl == url
  }

  /** Does the unique index hold `url` already: on a soft-deleted row, or on a live row other than
      `except`? */
  predicate UrlHeld(rows: map<nat, SocialMedia>, retired: set<string>, url: string, except: nat) {
    url in retired || UrlTaken(rows, url, except)
  }

  function LoadSocialMedia(rows: map<nat, SocialMedia>, users: map<nat, User>, id: nat): Loaded<SocialMedia>
    requires id in rows
  {
    Loaded(rows[id], OwnerOf(users, rows[id].userId))
  }

  /** FindAll: every row with its owner, in id order. */
  function FindAllSocialMedias(rows: map<nat, SocialMedia>, nextId: nat, users: map<nat, User>, readFails: bool)
    : (r: Result<seq<Loaded<SocialMedia>>, DbError>)
    ensures readFails <==> r.Err?
    ensures r.Ok? ==> forall i :: 0 <= i < |r.value| ==>
      r.value[i].row in rows.Values && r.value[i].user == OwnerOf(users, r.value[i].row.userId)
  {
    if readFails then Err(ConnectionFailed)
    else
      var ids := IdsBelowWhere(rows, nextId, (_: SocialMedia) => true);
      Ok(seq(|ids|, i requires 0 <= i < |ids| => LoadSocialMedia(rows, users, ids[i])))
  }

  /** On a well-keyed table FindAll returns every row exactly once, in increasing id order. */
  lemma FindAllSocialMediasComplete(rows: map<nat, SocialMedia>, nextId: nat, users: map<nat, User>)
    requires SocialMediasKeyed(rows, nextId)
    ensures var r := FindAllSocialMedias(rows, nextId, users, false);
      && |r.value| == |rows|
      && (forall k :: k in rows ==> exists i :: 0 <= i < |r.value| && r.value[i].row == rows[k])
      && (forall i, j :: 0 <= i < j < |r.value| ==> r.value[i].row.id < r.value[j].row.id)
  {
    var ids := IdsBelowWhere(rows, nextId, (_: SocialMedia) => true);
    var rs := FindAllSocialMedias(rows, nextId, users, false).value;
    assert |rs| == |ids|;
    assert forall i | 0 <= i < |ids| :: rs[i].row == rows[ids[i]] && rs[i].row.id == ids[i];
    assert |ids| == |rows| by { AllIdsCount(rows, nextId, (_: SocialMedia) => true); }
    forall k | k in rows
      ensures exists i :: 0 <= i < |rs| && rs[i].row == rows[k]
    {
      assert k in ids;
      var i :| 0 <= i < |ids| && ids[i] == k;
      assert rs[i].row == rows[k];
    }
    forall i, j | 0 <= i < j < |rs|
      ensures rs[i].row.id < rs[j].row.id
    {
    }
  }

  /** FindById: the row with that id and its owner, or record-not-found. */
  function FindSocialMedia(rows: map<nat, SocialMedia>, users: map<nat, User>, id: int, readFails: bool)
    : (r: Result<Loaded<SocialMedia>, DbError>)
    ensures r.Ok? <==> !readFails && 0 <= id && id as nat in rows
    ensures r.Ok? ==> r.value == Loaded(rows[id as nat], OwnerOf(users, rows[id as nat].userId))
    ensures !readFails && r.Err? ==> r.error == RecordNotFound
  {
    if readFails then Err(ConnectionFailed)
    else if 0 <= id && id as nat in rows then Ok(LoadSocialMedia(rows, users, id as nat))
    else Err(RecordNotFound)
  }

  /** Save: the BeforeCreate hook, then the unique index on the URL, then the insert. */
  function SaveSocialMedia(rows: map<nat, SocialMedia>, retired: set<string>, nextId: nat, s: SocialMedia,
                           writeFails: bool): (r: Saved<SocialMedia>)
    ensures r.result.Ok? <==>
      SocialMediaBeforeCreate(s) == [] && !UrlHeld(rows, retired, s.socialMediaUrl, 0) && !writeFails
    ensures SocialMediaBeforeCreate(s) != [] ==> r.result == Err(HookRejected(SocialMediaBeforeCreate(s)))
    ensures SocialMediaBeforeCreate(s) == [] && UrlHeld(rows, retired, s.socialMediaUrl, 0) ==>
      r.result == Err(DuplicateKey(UrlColumn))
    ensures r.result.Ok? ==>
      && r.result.value == s.(id := nextId)
      && r.rows == rows[nextId := r.result.value] && r.nextId == nextId + 1
    ensures r.result.Err? ==> r.rows == rows && r.nextId == nextId
  {
    var errs := SocialMediaBeforeCreate(s);
    if errs != [] then Saved(Err(HookRejected(errs)), rows, nextId)
    else if UrlHeld(rows, retired, s.socialMediaUrl, 0) then Saved(Err(DuplicateKey(UrlColumn)), rows, nextId)
    else if writeFails then Saved(Err(ConnectionFailed), rows, nextId)
    else
      var stored := s.(id := nextId);
      Saved(Ok(stored), rows[nextId := stored], nextId + 1)
  }

  /** Update: the BeforeUpdate hook checks the whole struct; the row with `s.id` (if any) takes the
      new name and URL unless the index holds that URL for another row, live or soft-deleted. */
  function UpdateSocialMedia(rows: map<nat, SocialMedia>, retired: set<string>, s: SocialMedia, writeFails: bool)
    : (w: Written<SocialMedia>)
    ensures w.result.Ok? <==>
      && SocialMediaBeforeUpdate(s) == []
      && !(s.id in rows && UrlHeld(rows, retired, s.socialMediaUrl, s.id))
      && !writeFails
    ensures SocialMediaBeforeUpdate(s) != [] ==> w.result == Err(HookRejected(SocialMediaBeforeUpdate(s)))
    ensures SocialMediaBeforeUpdate(s) == [] && s.id in rows && UrlHeld(rows, retired, s.socialMediaUrl, s.id) ==>
      w.result == Err(DuplicateKey(UrlColumn))
    ensures w.result.Ok? ==> w.result.value == s
    ensures w.result.Err? ==> w.rows == rows
    ensures w.rows.Keys == rows.Keys
    ensures forall k :: k in rows && k != s.id ==> w.rows[k] == rows[k]
    ensures w.result.Ok? && s.id in rows ==>
      && w.rows[s.id].name == s.name && w.rows[s.id].socialMediaUrl == s.socialMediaUrl
      && w.rows[s.id].id == rows[s.id].id && w.rows[s.id].userId == rows[s.id].userId
  {
    var errs := SocialMediaBeforeUpdate(s);
    if errs != [] then Written(Err(HookRejected(errs)), rows)
    else if s.id in rows && UrlHeld(rows, retired, s.socialMediaUrl, s.id) then Written(Err(DuplicateKey(UrlColumn)), rows)
    else if writeFails then Written(Err(ConnectionFailed), rows)
    else if s.id in rows then
      Written(Ok(s), rows[s.id := rows[s.id].(name := s.name, socialMediaUrl := s.socialMediaUrl)])
    else Written(Ok(s), rows)
  }

  /** The result of a soft delete: the live table afterwards and the URLs the index still holds
      for deleted rows. */
  datatype SoftDeleted = SoftDeleted(result: Result<SocialMedia, DbError>, rows: map<nat, SocialMedia>, retired: set<string>)

  /** Delete: the row with `s.id` leaves the live table, and its URL joins the retired ones. */
  function SoftDeleteSocialMedia(rows: map<nat, SocialMedia>, retired: set<string>, s: SocialMedia, writeFails: bool)
    : (d: SoftDeleted)
    ensures s.id == 0 ==> d.result == Err(MissingWhereClause)
    ensures d.result.Ok? <==> s.id != 0 && !writeFails
    ensures d.result.Ok? ==> d.result.value == s && d.rows == rows - {s.id}
    ensures d.result.Ok? && s.id in rows ==> d.retired == retired + {rows[s.id].socialMediaUrl}
    ensures !(d.result.Ok? && s.id in rows) ==> d.retired == retired
    ensures d.result.Err? ==> d.rows == rows
  {
    var w := DeleteRow(rows, s, s.id, writeFails);
    var gone := if w.result.Ok? && s.id in rows then {rows[s.id].socialMediaUrl} else {};
    SoftDeleted(w.result, w.rows, retired + gone)
  }

  class SocialMediaRepo {
    const db: Db

    constructor (db: Db)
      ensures this.db == db
    {
      this.db := db;
    }

    method FindAll(readFails: bool) returns (r: Result<seq<Loaded<SocialMedia>>, DbError>)
      ensures r == FindAllSocialMedias(db.socialMedias, db.nextSocialMediaId, db.users, readFails)
    {
      r := FindAllSocialMedias(db.socialMedias, db.nextSocialMediaId, db.users, readFails);
    }

    method FindById(id: int, readFails: bool) returns (r: Result<Loaded<SocialMedia>, DbError>)
      ensures r == FindSocialMedia(db.socialMedias, db.users, id, readFails)
    {
      r := FindSocialMedia(db.socialMedias, db.users, id, readFails);
    }

    method Save(s: SocialMedia, writeFails: bool) returns (r: Result<SocialMedia, DbError>)
      requires db.Valid()
      modifies db`socialMedias, db`nextSocialMediaId
      ensures db.Valid()
      ensures var w := SaveSocialMedia(old(db.socialMedias), db.retiredUrls, old(db.nextSocialMediaId), s, writeFails);
        r == w.result && db.socialMedias == w.rows && db.nextSocialMediaId == w.nextId
    {
      var w := SaveSocialMedia(db.socialMedias, db.retiredUrls, db.nextSocialMediaId, s, writeFails);
      db.socialMedias, db.nextSocialMediaId := w.rows, w.nextId;
      r := w.result;
    }

    method Update(s: SocialMedia, writeFails: bool) returns (r: Result<SocialMedia, DbError>)
      requires db.Valid()
      modifies db`socialMedias
      ensures db.Valid()
      ensures var w := UpdateSocialMedia(old(db.socialMedias), db.retiredUrls, s, writeFails);
        r == w.result && db.socialMedias == w.rows
    {
      var w := UpdateSocialMedia(db.socialMedias, db.retiredUrls, s, writeFails);
      db.socialMedias := w.rows;
      r := w.result;
    }

    method Delete(s: SocialMedia, writeFails: bool) returns (r: Result<SocialMedia, DbError>)
      requires db.Valid()
      modifies db`socialMedias, db`retiredUrls
      ensures db.Valid()
      ensures var d := SoftDeleteSocialMedia(old(db.socialMedias), old(db.retiredUrls), s, writeFails);
        r == d.result && db.socialMedias == d.rows && db.retiredUrls == d.retired
    {
      var d := SoftDeleteSocialMedia(db.socialMedias, db.retiredUrls, s, writeFails);
      db.socialMedias, db.retiredUrls := d.rows, d.retired;
      r := d.result;
    }
  }
}
