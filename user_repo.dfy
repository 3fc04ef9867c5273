/** The user repository (repositories/user.go): an insert that runs the User BeforeCreate hook
    (validate, then hash) under the unique indexes on username and email, and a lookup by email. */
module UserRepository {
  import opened Wrappers
  import opened Models
  import opened Database
  import Bcrypt

  /** Is the username or the email already stored? */
  predicate UsernameTaken(rows: map<nat, User>, username: string) {
    exists k :: k in rows && rows[k].username == username
  }

  predicate EmailTaken(rows: map<nat, User>, email: string) {
    exists k :: k in rows && rows[k].email == email
  }

  /** Save: the hook validates and hashes (or ends the process), the unique indexes refuse a taken
      username or email, and the hashed user is inserted under the next id. The plaintext password
      is never stored. */
  function SaveUser(rows: map<nat, User>, nextId: nat, u: User, isEmail: string -> bool, writeFails: bool)
    : (s: Saved<User>)
    ensures s.result.Ok? <==>
      && UserBeforeCreate(u, isEmail).Hashed?
      && !UsernameTaken(rows, u.username) && !EmailTaken(rows, u.email) && !writeFails
    ensures UserBeforeCreate(u, isEmail).Rejected? ==> s.result == Err(HookRejected(UserBeforeCreate(u, isEmail).violations))
    ensures UserBeforeCreate(u, isEmail).HashExited? ==> s.result == Err(HookExited)
    ensures UserBeforeCreate(u, isEmail).Hashed? && UsernameTaken(rows, u.username) ==> s.result == Err(DuplicateKey("username"))
    ensures UserBeforeCreate(u, isEmail).Hashed? && !UsernameTaken(rows, u.username) && EmailTaken(rows, u.email) ==>
      s.result == Err(DuplicateKey("email"))
    ensures s.result.Ok? ==>
      && s.result.value == User(nextId, u.username, u.email, Bcrypt.HashPassword(u.password).value, u.age)
      && s.rows == rows[nextId := s.result.value] && s.nextId == nextId + 1
    ensures s.result.Err? ==> s.rows == rows && s.nextId == nextId
  {
    match UserBeforeCreate(u, isEmail)
    case Rejected(errs) => Saved(Err(HookRejected(errs)), rows, nextId)
    case HashExited => Saved(Err(HookExited), rows, nextId)
    case Hashed(hashed) =>
      if UsernameTaken(rows, u.username) then Saved(Err(DuplicateKey("username")), rows, nextId)
      else if EmailTaken(rows, u.email) then Saved(Err(DuplicateKey("email")), rows, nextId)
      else if writeFails then Saved(Err(ConnectionFailed), rows, nextId)
      else
        var stored := hashed.(id := nextId);
        Saved(Ok(stored), rows[nextId := stored], nextId + 1)
  }

  /** FindByEmail: a row with that email (its lowest id, the only one when emails are unique),
      password digest included, or record-not-found. */
  function FindUserByEmail(rows: map<nat, User>, nextId: nat, email: string, readFails: bool)
    : (r: Result<User, DbError>)
    ensures readFails ==> r == Err(ConnectionFailed)
    ensures r.Ok? ==> r.value.email == email && r.value in rows.Values
    ensures !readFails && UsersKeyed(rows, nextId) ==> (r.Ok? <==> EmailTaken(rows, email))
    ensures !readFails && r.Err? ==> r.error == RecordNotFound
  {
    if readFails then Err(ConnectionFailed)
    else
      var ids := IdsBelowWhere(rows, nextId, (u: User) => u.email == email);
      if |ids| == 0 then
        assert forall k :: k in rows && k < nextId ==> rows[k].email != email by {
          forall k | k in rows && k < nextId ensures rows[k].email != email {
            assert k !in ids;
          }
        }
        Err(RecordNotFound)
      else
        assert ids[0] in ids;
        Ok(rows[ids[0]])
  }

  /** With unique emails, the row FindByEmail returns is the one stored under that email. */
  lemma FindUserByEmailExact(rows: map<nat, User>, nextId: nat, k: nat)
    requires UsersKeyed(rows, nextId) && UsersUnique(rows) && k in rows
    ensures FindUserByEmail(rows, nextId, rows[k].email, false) == Ok(rows[k])
  {
    var r := FindUserByEmail(rows, nextId, rows[k].email, false);
    assert EmailTaken(rows, rows[k].email);
    var j :| j in rows && rows[j] == r.value;
    assert rows[j].email == rows[k].email;
  }

  class UserRepo {
    const db: Db

    constructor (db: Db)
      ensures this.db == db
    {
      this.db := db;
    }

    method Save(u: User, isEmail: string -> bool, writeFails: bool) returns (r: Result<User, DbError>)
      requires db.Valid()
      modifies db`users, db`nextUserId
      ensures db.Valid()
      ensures var s := SaveUser(old(db.users), old(db.nextUserId), u, isEmail, writeFails);
        r == s.result && db.users == s.rows && db.nextUserId == s.nextId
    {
      var s := SaveUser(db.users, db.nextUserId, u, isEmail, writeFails);
      db.users, db.nextUserId := s.rows, s.nextId;
      r := s.result;
    }

    method FindByEmail(email: string, readFails: bool) returns (r: Result<User, DbError>)
      ensures r == FindUserByEmail(db.users, db.nextUserId, email, readFails)
    {
      r := FindUserByEmail(db.users, db.nextUserId, email, readFails);
    }
  }
}
