/** The comment service (services/comment.go): it turns the handler's inputs into rows and hands
    them to the comment repository. Create never carries an id, Update carries the input's id and
    Delete converts the handler's int to the row key the way `uint(commentId)` does. */
module CommentService {
  import opened Wrappers
  import opened Text
  import opened Models
  import opened Database
  import opened CommentRepository

  /** Create: a new row made of the input's message, owner and photo, saved under the next id. */
  function CreateComment(rows: map<nat, Comment>, nextId: nat, input: CommentCreateInput, writeFails: bool)
    : (s: Saved<Comment>)
    ensures s.result.Ok? <==> ValidateCommentCreate(input) == [] && !writeFails
    ensures ValidateCommentCreate(input) != [] ==> s.result == Err(HookRejected(ValidateCommentCreate(input)))
    ensures s.result.Ok? ==>
      && s.result.value == Comment(nextId, input.message, input.userId, input.photoId)
      && s.rows == rows[nextId := s.result.value] && s.nextId == nextId + 1
    ensures s.result.Err? ==> s.rows == rows && s.nextId == nextId
  {
    SaveComment(rows, nextId, Comment(0, input.message, input.userId, input.photoId), writeFails)
  }

  /** Update: the input's id selects the row; only its message can change. */
  function UpdateCommentFrom(rows: map<nat, Comment>, input: CommentUpdateInput, writeFails: bool)
    : (w: Written<Comment>)
    ensures w.result.Ok? <==> ValidateCommentUpdate(input) == [] && !writeFails
    ensures ValidateCommentUpdate(input) != [] ==> w.result == Err(HookRejected(ValidateCommentUpdate(input)))
    ensures w.result.Ok? ==> w.result.value == Comment(input.id, input.message, input.userId, input.photoId)
    ensures w.result.Err? ==> w.rows == rows
    ensures w.rows.Keys == rows.Keys
    ensures forall k :: k in rows && k != input.id ==> w.rows[k] == rows[k]
    ensures input.id in rows ==>
      && w.rows[input.id].id == rows[input.id].id
      && w.rows[input.id].userId == rows[input.id].userId
      && w.rows[input.id].photoId == rows[input.id].photoId
    ensures w.result.Ok? && input.id in rows ==> w.rows[input.id].message == input.message
  {
    UpdateComment(rows, Comment(input.id, input.message, input.userId, input.photoId), writeFails)
  }

  /** Delete: the row key is `uint(commentId)`, so a negative id names a key at or above 2^63. */
  function DeleteCommentById(rows: map<nat, Comment>, commentId: int, writeFails: bool): (w: Written<Comment>)
    requires MinInt64 <= commentId <= MaxInt64
    ensures commentId == 0 ==> w.result == Err(MissingWhereClause)
    ensures w.result.Ok? <==> commentId != 0 && !writeFails
    ensures w.result.Ok? && 0 < commentId ==> w.rows == rows - {commentId as nat}
    ensures w.result.Ok? && commentId < 0 ==> w.rows == rows - {(commentId + Uint64Modulus) as nat}
    ensures w.result.Err? ==> w.rows == rows
  {
    DeleteRow(rows, Comment(UintOf(commentId), "", 0, 0), UintOf(commentId), writeFails)
  }

  /** A comment just created is found again under its photo and the id it was given, with its owner. */
  lemma CreatedCommentIsFound(rows: map<nat, Comment>, nextId: nat, users: map<nat, User>,
                              input: CommentCreateInput)
    requires ValidateCommentCreate(input) == []
    ensures var s := CreateComment(rows, nextId, input, false);
      && s.result.Ok?
      && FindComment(s.rows, users, input.photoId, nextId, false)
         == Ok(Loaded(s.result.value, OwnerOf(users, input.userId)))
  {
  }

  /** Under another photo the same comment is not found: the lookup is scoped by the photo. */
  lemma CreatedCommentHiddenFromOtherPhoto(rows: map<nat, Comment>, nextId: nat, users: map<nat, User>,
                                           input: CommentCreateInput, photoId: int)
    requires ValidateCommentCreate(input) == [] && photoId != input.photoId as int
    ensures FindComment(CreateComment(rows, nextId, input, false).rows, users, photoId, nextId, false)
            == Err(RecordNotFound)
  {
  }

  /** With a write that does not fail, when every key is a real id below the counter and the
      counter has not passed the int64 range, a negative id wraps to a key no row has: the delete
      removes nothing and still reports success, provided the driver accepts the wrapped key. Over
      HTTP the service never sees such an id: CommentAuthorization (Middlewares.Authorize) answers
      404 for a negative id first. */
  lemma DeleteNegativeIdRemovesNothing(rows: map<nat, Comment>, nextId: nat, commentId: int)
    requires CommentsKeyed(rows, nextId) && nextId <= MaxInt64 + 1
    requires MinInt64 <= commentId < 0
    ensures var w := DeleteCommentById(rows, commentId, false);
      w.result.Ok? && w.rows == rows
  {
    var key := (commentId + Uint64Modulus) as nat;
    assert nextId <= key;
    assert key !in rows;
    assert rows - {key} == rows;
  }

  /** Create, update and delete keep every key a row id below the counter. */
  lemma CommentWritesKeepKeys(rows: map<nat, Comment>, nextId: nat, create: CommentCreateInput,
                              update: CommentUpdateInput, commentId: int, writeFails: bool)
    requires CommentsKeyed(rows, nextId) && MinInt64 <= commentId <= MaxInt64
    ensures var s := CreateComment(rows, nextId, create, writeFails); CommentsKeyed(s.rows, s.nextId)
    ensures CommentsKeyed(UpdateCommentFrom(rows, update, writeFails).rows, nextId)
    ensures CommentsKeyed(DeleteCommentById(rows, commentId, writeFails).rows, nextId)
  {
    var u := UpdateCommentFrom(rows, update, writeFails).rows;
    forall k | k in u
      ensures u[k].id == k && 0 < k < nextId
    {
      assert k in rows;
    }
  }

  class CommentSvc {
    const repo: CommentRepo

    constructor (repo: CommentRepo)
      ensures this.repo == repo
    {
      this.repo := repo;
    }

    method GetAll(photoId: int, readFails: bool) returns (r: Result<seq<Loaded<Comment>>, DbError>)
      ensures r == FindAllComments(repo.db.comments, repo.db.nextCommentId, repo.db.users, photoId, readFails)
    {
      r := repo.FindAll(photoId, readFails);
    }

    method GetOneById(photoId: int, commentId: int, readFails: bool) returns (r: Result<Loaded<Comment>, DbError>)
      ensures r == FindComment(repo.db.comments, repo.db.users, photoId, commentId, readFails)
    {
      r := repo.FindById(photoId, commentId, readFails);
    }

    method Create(input: CommentCreateInput, writeFails: bool) returns (r: Result<Comment, DbError>)
      requires repo.db.Valid()
      modifies repo.db`comments, repo.db`nextCommentId
      ensures repo.db.Valid()
      ensures var s := CreateComment(old(repo.db.comments), old(repo.db.nextCommentId), input, writeFails);
        r == s.result && repo.db.comments == s.rows && repo.db.nextCommentId == s.nextId
    {
      r := repo.Save(Comment(0, input.message, input.userId, input.photoId), writeFails);
    }

    method Update(input: CommentUpdateInput, writeFails: bool) returns (r: Result<Comment, DbError>)
      requires repo.db.Valid()
      modifies repo.db`comments
      ensures repo.db.Valid()
      ensures var w := UpdateCommentFrom(old(repo.db.comments), input, writeFails);
        r == w.result && repo.db.comments == w.rows
    {
      r := repo.Update(Comment(input.id, input.message, input.userId, input.photoId), writeFails);
    }

    method Delete(commentId: int, writeFails: bool) returns (r: Option<DbError>)
      requires repo.db.Valid() && MinInt64 <= commentId <= MaxInt64
      modifies repo.db`comments
      ensures repo.db.Valid()
      ensures var w := DeleteCommentById(old(repo.db.comments), commentId, writeFails);
        (r.None? <==> w.result.Ok?) && (r.Some? ==> r.value == w.result.error) && repo.db.comments == w.rows
    {
      var res := repo.Delete(Comment(UintOf(commentId), "", 0, 0), writeFails);
      r := if res.Ok? then None else Some(res.error);
    }
  }
}
