/** The relational store the repositories share (the *gorm.DB handle): one table per entity, keyed
    by id, with an auto-increment counter per table and the unique indexes the models declare.
    A row that GORM soft-deletes is absent here, as it is from every normal read. */
module Database {
  import opened Wrappers
  import opened Models
  import Text

  /** What a GORM call can fail with. `ConnectionFailed` stands for every failure of the database
      itself; the call's `fails` parameter says whether it happens. */
  datatype DbError =
    | HookRejected(violations: seq<string>)   // a BeforeCreate/BeforeUpdate hook returned an error
    | RecordNotFound                          // gorm.ErrRecordNotFound
    | DuplicateKey(column: string)            // a unique index refused the row
    | MissingWhereClause                      // Delete with a zero primary key
    | ConnectionFailed
    | HookExited                              // a hook ended the process (log.Fatal)

  /** A row read with its owner preloaded through the password-free projection. */
  datatype Loaded<T> = Loaded(row: T, user: UserRegisterOutput)

  /** The result of an insert: the error or the stored row, and the table afterwards. */
  datatype Saved<T> = Saved(result: Result<T, DbError>, rows: map<nat, T>, nextId: nat)

  /** The result of an update or a delete, and the table afterwards. */
  datatype Written<T> = Written(result: Result<T, DbError>, rows: map<nat, T>)

  /** GORM's Delete of an entity: by its primary key `id`. A zero key is refused before any SQL
      runs (no WHERE clause); a key with no row is not an error. */
  function DeleteRow<T>(rows: map<nat, T>, entity: T, id: nat, writeFails: bool): (w: Written<T>)
    ensures id == 0 ==> w.result == Err(MissingWhereClause)
    ensures w.result.Ok? <==> id != 0 && !writeFails
    ensures w.result.Ok? ==> w.result.value == entity && w.rows == rows - {id}
    ensures w.result.Err? ==> w.rows == rows
  {
    if id == 0 then Written(Err(MissingWhereClause), rows)
    else if writeFails then Written(Err(ConnectionFailed), rows)
    else Written(Ok(entity), rows - {id})
  }

  /** The owner projection for a foreign key; the zero value when no user row matches. */
  function OwnerOf(users: map<nat, User>, userId: nat): (o: UserRegisterOutput)
    ensures userId in users ==> o == UserProjection(users[userId])
    ensures userId !in users ==> o == NoUser
  {
    if userId in users then UserProjection(users[userId]) else NoUser
  }

  /** The ids below `n` whose rows satisfy `keep`, in increasing order: the order in which the
      model lets a query without ORDER BY return rows. */
  function IdsBelowWhere<T>(m: map<nat, T>, n: nat, keep: T -> bool): (ids: seq<nat>)
    ensures forall i, j :: 0 <= i < j < |ids| ==> ids[i] < ids[j]
    ensures forall k :: k in ids <==> k in m && k < n && keep(m[k])
  {
    if n == 0 then []
    else
      var rest := IdsBelowWhere(m, n - 1, keep);
      if n - 1 in m && keep(m[n - 1]) then
        assert forall i :: 0 <= i < |rest| ==> rest[i] in rest;
        rest + [n - 1]
      else rest
  }

  /** A strictly increasing list of ids holding exactly the keys of a map has one entry per key. */
  lemma IdsCoverKeys<T>(rows: map<nat, T>, ids: seq<nat>)
    requires forall i, j :: 0 <= i < j < |ids| ==> ids[i] < ids[j]
    requires forall k :: k in ids <==> k in rows
    ensures |ids| == |rows|
  {
    var s := set i | 0 <= i < |ids| :: ids[i];
    assert s == rows.Keys;
    DistinctCard(ids);
  }

  /** When every key is below the bound and kept, the scan lists one id per key. */
  lemma AllIdsCount<T>(m: map<nat, T>, n: nat, keep: T -> bool)
    requires forall k | k in m :: k < n && keep(m[k])
    ensures |IdsBelowWhere(m, n, keep)| == |m|
  {
    IdsCoverKeys(m, IdsBelowWhere(m, n, keep));
  }

  /** The set of a strictly increasing list has as many elements as the list. */
  lemma {:induction false} DistinctCard(ids: seq<nat>)
    requires forall i, j :: 0 <= i < j < |ids| ==> ids[i] < ids[j]
    ensures |set i | 0 <= i < |ids| :: ids[i]| == |ids|
  {
    if |ids| > 0 {
      var init := ids[..|ids| - 1];
      DistinctCard(init);
      var s := set i | 0 <= i < |ids| :: ids[i];
      var t := set i | 0 <= i < |init| :: init[i];
      assert s == t + {ids[|ids| - 1]};
      assert ids[|ids| - 1] !in t;
    }
  }

  const Uint64Modulus: nat := 0x1_0000_0000_0000_0000

  /** Converts a Go uint back to an int the way `int(u)` does on a 64-bit platform. */
  function IntOf(u: nat): (i: int)
    requires u < Uint64Modulus
    ensures Text.MinInt64 <= i <= Text.MaxInt64
    ensures u <= Text.MaxInt64 ==> i == u
    ensures u > Text.MaxInt64 ==> i == u - Uint64Modulus
  {
    if u > Text.MaxInt64 then u - Uint64Modulus else u
  }

  /** Converts a Go int to a uint the way `uint(i)` does on a 64-bit platform; converting back
      with IntOf gives the int again. */
  function UintOf(i: int): (u: nat)
    requires Text.MinInt64 <= i <= Text.MaxInt64
    ensures u < Uint64Modulus && IntOf(u) == i
    ensures 0 <= i ==> u == i
    ensures i < 0 ==> u == i + Uint64Modulus
  {
    if i < 0 then i + Uint64Modulus else i
  }

  predicate PhotosKeyed(rows: map<nat, Photo>, nextId: nat) {
    0 < nextId && forall k | k in rows :: rows[k].id == k && 0 < k < nextId
  }

  predicate CommentsKeyed(rows: map<nat, Comment>, nextId: nat) {
    0 < nextId && forall k | k in rows :: rows[k].id == k && 0 < k < nextId
  }

  predicate SocialMediasKeyed(rows: map<nat, SocialMedia>, nextId: nat) {
    0 < nextId && forall k | k in rows :: rows[k].id == k && 0 < k < nextId
  }

  predicate UsersKeyed(rows: map<nat, User>, nextId: nat) {
    0 < nextId && forall k | k in rows :: rows[k].id == k && 0 < k < nextId
  }

  /** `uniqueIndex` on users.username and users.email. */
  predicate UsersUnique(rows: map<nat, User>) {
    forall j, k | j in rows && k in rows && j != k ::
      rows[j].username != rows[k].username && rows[j].email != rows[k].email
  }

  /** `uniqueIndex` on social_media.social_media_url. */
  predicate SocialMediaUrlsUnique(rows: map<nat, SocialMedia>) {
    forall j, k | j in rows && k in rows && j != k :: rows[j].socialMediaUrl != rows[k].socialMediaUrl
  }

  /** No live social media holds a URL a soft-deleted one still holds in the unique index. */
  predicate LiveUrlsNotRetired(rows: map<nat, SocialMedia>, retired: set<string>) {
    forall k | k in rows :: rows[k].socialMediaUrl !in retired
  }

  class Db {
    var users: map<nat, User>
    var photos: map<nat, Photo>
    var comments: map<nat, Comment>
    var socialMedias: map<nat, SocialMedia>
    var nextUserId: nat
    var nextPhotoId: nat
    var nextCommentId: nat
    var nextSocialMediaId: nat
    /** The URLs of soft-deleted social media: their rows stay in the table with deleted_at set,
        so the unique index on the URL still holds them. */
    var retiredUrls: set<string>

    /** Every row sits under its own id, ids are below their table's counter, and the unique
        indexes hold. */
    ghost predicate Valid()
      reads this
    {
      && UsersKeyed(users, nextUserId) && UsersUnique(users)
      && PhotosKeyed(photos, nextPhotoId)
      && CommentsKeyed(comments, nextCommentId)
      && SocialMediasKeyed(socialMedias, nextSocialMediaId) && SocialMediaUrlsUnique(socialMedias)
      && LiveUrlsNotRetired(socialMedias, retiredUrls)
    }

    /** An empty database: every counter starts at 1, as a serial primary key does. */
    constructor ()
      ensures Valid()
      ensures users == map[] && photos == map[] && comments == map[] && socialMedias == map[]
      ensures nextUserId == 1 && nextPhotoId == 1 && nextCommentId == 1 && nextSocialMediaId == 1
      ensures retiredUrls == {}
    {
      users, photos, comments, socialMedias := map[], map[], map[], map[];
      retiredUrls := {};
      nextUserId, nextPhotoId, nextCommentId, nextSocialMediaId := 1, 1, 1, 1;
    }
  }
}
