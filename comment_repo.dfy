/** The comment repository (repositories/comment.go): every read is scoped to one photo, writes go
    through the Comment hooks, and an update changes the message only. */
module CommentRepository {
  import opened Wrappers
  import opened Models
  import opened Database

  /** Does a comment belong to the photo a request names? The id comes in as a Go int. */
  predicate OnPhoto(c: Comment, photoId: int) {
    c.photoId as int == photoId
  }

  function LoadComment(rows: map<nat, Comment>, users: map<nat, User>, id: nat): Loaded<Comment>
    requires id in rows
  {
    Loaded(rows[id], OwnerOf(users, rows[id].userId))
  }

  /** FindAll(photoId): the comments on that photo, each with its owner, in id order. */
  function FindAllComments(rows: map<nat, Comment>, nextId: nat, users: map<nat, User>, photoId: int, readFails: bool)
    : (r: Result<seq<Loaded<Comment>>, DbError>)
    ensures readFails <==> r.Err?
    ensures r.Ok? ==> forall i :: 0 <= i < |r.value| ==>
      && r.value[i].row in rows.Values && OnPhoto(r.value[i].row, photoId)
      && r.value[i].user == OwnerOf(users, r.value[i].row.userId)
  {
    if readFails then Err(ConnectionFailed)
    else
      var ids := IdsBelowWhere(rows, nextId, (c: Comment) => OnPhoto(c, photoId));
      Ok(seq(|ids|, i requires 0 <= i < |ids| => LoadComment(rows, users, ids[i])))
  }

  /** On a well-keyed table FindAll(photoId) misses no comment on that photo and lists each once,
      in increasing id order. */
  lemma FindAllCommentsComplete(rows: map<nat, Comment>, nextId: nat, users: map<nat, User>, photoId: int)
    requires CommentsKeyed(rows, nextId)
    ensures var r := FindAllComments(rows, nextId, users, photoId, false);
      && (forall k :: k in rows && OnPhoto(rows[k], photoId) ==>
            exists i :: 0 <= i < |r.value| && r.value[i].row == rows[k])
      && (forall i, j :: 0 <= i < j < |r.value| ==> r.value[i].row.id < r.value[j].row.id)
  {
    var ids := IdsBelowWhere(rows, nextId, (c: Comment) => OnPhoto(c, photoId));
    var rs := FindAllComments(rows, nextId, users, photoId, false).value;
    assert |rs| == |ids|;
    assert forall i | 0 <= i < |ids| :: rs[i].row == rows[ids[i]] && rs[i].row.id == ids[i];
    forall k | k in rows && OnPhoto(rows[k], photoId)
      ensures exists i :: 0 <= i < |rs| && rs[i].row == rows[k]
    {
      assert k in ids;
      var i :| 0 <= i < |ids| && ids[i] == k;
      assert rs[i].row == rows[k];
    }
    forall i, j | 0 <= i < j < |rs|
      ensures rs[i].row.id < rs[j].row.id
    {
    }
  }

  /** FindById(photoId, commentId): the comment only when it sits on that photo. */
  function FindComment(rows: map<nat, Comment>, users: map<nat, User>, photoId: int, commentId: int, readFails: bool)
    : (r: Result<Loaded<Comment>, DbError>)
    ensures r.Ok? <==> !readFails && 0 <= commentId && commentId as nat in rows && OnPhoto(rows[commentId as nat], photoId)
    ensures r.Ok? ==> r.value == Loaded(rows[commentId as nat], OwnerOf(users, rows[commentId as nat].userId))
    ensures !readFails && r.Err? ==> r.error == RecordNotFound
  {
    if readFails then Err(ConnectionFailed)
    else if 0 <= commentId && commentId as nat in rows && OnPhoto(rows[commentId as nat], photoId) then
      Ok(LoadComment(rows, users, commentId as nat))
    else Err(RecordNotFound)
  }

  /** Save: the BeforeCreate hook first, then an insert under the next id. */
  function SaveComment(rows: map<nat, Comment>, nextId: nat, c: Comment, writeFails: bool): (s: Saved<Comment>)
    ensures s.result.Ok? <==> CommentBeforeCreate(c) == [] && !writeFails
    ensures CommentBeforeCreate(c) != [] ==> s.result == Err(HookRejected(CommentBeforeCreate(c)))
    ensures s.result.Ok? ==>
      && s.result.value == c.(id := nextId)
      && s.rows == rows[nextId := s.result.value] && s.nextId == nextId + 1
    ensures s.result.Err? ==> s.rows == rows && s.nextId == nextId
  {
    var errs := CommentBeforeCreate(c);
    if errs != [] then Saved(Err(HookRejected(errs)), rows, nextId)
    else if writeFails then Saved(Err(ConnectionFailed), rows, nextId)
    else
      var stored := c.(id := nextId);
      Saved(Ok(stored), rows[nextId := stored], nextId + 1)
  }

  /** Update: the BeforeUpdate hook checks the whole struct; the row with `c.id` (if any) takes the
      new message and keeps its owner and photo. */
  function UpdateComment(rows: map<nat, Comment>, c: Comment, writeFails: bool): (w: Written<Comment>)
    ensures w.result.Ok? <==> CommentBeforeUpdate(c) == [] && !writeFails
    ensures CommentBeforeUpdate(c) != [] ==> w.result == Err(HookRejected(CommentBeforeUpdate(c)))
    ensures w.result.Ok? ==> w.result.value == c
    ensures w.result.Err? ==> w.rows == rows
    ensures w.rows.Keys == rows.Keys
    ensures forall k :: k in rows && k != c.id ==> w.rows[k] == rows[k]
    ensures w.result.Ok? && c.id in rows ==>
      && w.rows[c.id].message == c.message
      && w.rows[c.id].id == rows[c.id].id && w.rows[c.id].userId == rows[c.id].userId
      && w.rows[c.id].photoId == rows[c.id].photoId
  {
    var errs := CommentBeforeUpdate(c);
    if errs != [] then Written(Err(HookRejected(errs)), rows)
    else if writeFails then Written(Err(ConnectionFailed), rows)
    else if c.id in rows then Written(Ok(c), rows[c.id := rows[c.id].(message := c.message)])
    else Written(Ok(c), rows)
  }

  class CommentRepo {
    const db: Db

    constructor (db: Db)
      ensures this.db == db
    {
      this.db := db;
    }

    method FindAll(photoId: int, readFails: bool) returns (r: Result<seq<Loaded<Comment>>, DbError>)
      ensures r == FindAllComments(db.comments, db.nextCommentId, db.users, photoId, readFails)
    {
      r := FindAllComments(db.comments, db.nextCommentId, db.users, photoId, readFails);
    }

    method FindById(photoId: int, commentId: int, readFails: bool) returns (r: Result<Loaded<Comment>, DbError>)
      ensures r == FindComment(db.comments, db.users, photoId, commentId, readFails)
    {
      r := FindComment(db.comments, db.users, photoId, commentId, readFails);
    }

    method Save(c: Comment, writeFails: bool) returns (r: Result<Comment, DbError>)
      requires db.Valid()
      modifies db`comments, db`nextCommentId
      ensures db.Valid()
      ensures var s := SaveComment(old(db.comments), old(db.nextCommentId), c, writeFails);
        r == s.result && db.comments == s.rows && db.nextCommentId == s.nextId
    {
      var s := SaveComment(db.comments, db.nextCommentId, c, writeFails);
      db.comments, db.nextCommentId := s.rows, s.nextId;
      r := s.result;
    }

    method Update(c: Comment, writeFails: bool) returns (r: Result<Comment, DbError>)
      requires db.Valid()
      modifies db`comments
      ensures db.Valid()
      ensures var w := UpdateComment(old(db.comments), c, writeFails); r == w.result && db.comments == w.rows
    {
      var w := UpdateComment(db.comments, c, writeFails);
      db.comments := w.rows;
      r := w.result;
    }

    method Delete(c: Comment, writeFails: bool) returns (r: Result<Comment, DbError>)
      requires db.Valid()
      modifies db`comments
      ensures db.Valid()
      ensures var w := DeleteRow(old(db.comments), c, c.id, writeFails); r == w.result && db.comments == w.rows
    {
      var w := DeleteRow(db.comments, c, c.id, writeFails);
      db.comments := w.rows;
      r := w.result;
    }
  }
}
