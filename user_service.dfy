/** The user service (services/user.go): registration stores the user through the repository,
    whose hook validates and hashes; login looks the email up, compares the password with the
    stored digest and issues a token. Both ways a login can fail give the caller the same message. */
module UserService {
  import opened Wrappers
  import opened Models
  import opened Database
  import opened UserRepository
  import opened Bcrypt
  import opened Jwt

  const LoginFailed: string := "invalid email or password"

  /** Register: a user made of the input's fields, with no id yet, saved through the repository. */
  function RegisterUser(rows: map<nat, User>, nextId: nat, input: UserRegisterInput, isEmail: string -> bool,
                        writeFails: bool): (s: Saved<User>)
    ensures s.result.Ok? <==>
      && ValidateUserRegister(input, isEmail) == [] && |Utf8(input.password)| <= MaxPasswordBytes
      && !UsernameTaken(rows, input.username) && !EmailTaken(rows, input.email) && !writeFails
    ensures ValidateUserRegister(input, isEmail) != [] ==> s.result.Err? && s.result.error.HookRejected?
    ensures ValidateUserRegister(input, isEmail) == [] && |Utf8(input.password)| > MaxPasswordBytes ==>
      s.result == Err(HookExited)
    ensures s.result.Ok? ==>
      && s.result.value == User(nextId, input.username, input.email, HashPassword(input.password).value, input.age)
      && s.result.value.password != input.password
      && s.rows == rows[nextId := s.result.value] && s.nextId == nextId + 1
    ensures s.result.Err? ==> s.rows == rows && s.nextId == nextId
  {
    SaveUser(rows, nextId, User(0, input.username, input.email, input.password, input.age), isEmail, writeFails)
  }

  /** Login: the token for the stored user whose email matches and whose digest accepts the
      password; every failure, whatever its cause, is the one message. */
  function LoginUser(rows: map<nat, User>, nextId: nat, input: UserLoginInput, readFails: bool): (r: Result<Token, string>)
    ensures r.Err? ==> r.error == LoginFailed
    ensures readFails ==> r == Err(LoginFailed)
    ensures r.Ok? ==> exists k :: k in rows && rows[k].email == input.email
                               && CompareHash(rows[k].password, input.password)
                               && r.value == GenerateToken(rows[k].id, input.email)
  {
    match FindUserByEmail(rows, nextId, input.email, readFails)
    case Err(_) => Err(LoginFailed)
    case Ok(user) =>
      if !CompareHash(user.password, input.password) then Err(LoginFailed)
      else Ok(GenerateToken(user.id, user.email))
  }

  /** An email nobody registered is refused with the common message. */
  lemma LoginUnknownEmail(rows: map<nat, User>, nextId: nat, input: UserLoginInput)
    requires UsersKeyed(rows, nextId) && !EmailTaken(rows, input.email)
    ensures LoginUser(rows, nextId, input, false) == Err(LoginFailed)
  {
  }

  /** A registered email with a wrong password is refused with the same message, so the answer
      does not tell which of the two was wrong. */
  lemma LoginWrongPassword(rows: map<nat, User>, nextId: nat, k: nat, attempt: string)
    requires UsersKeyed(rows, nextId) && UsersUnique(rows) && k in rows
    requires !CompareHash(rows[k].password, attempt)
    ensures LoginUser(rows, nextId, UserLoginInput(rows[k].email, attempt), false) == Err(LoginFailed)
  {
    FindUserByEmailExact(rows, nextId, k);
  }

  /** Registration keeps every key a user id below the counter and usernames and emails unique. */
  lemma RegisterKeepsUsersUnique(rows: map<nat, User>, nextId: nat, input: UserRegisterInput,
                                 isEmail: string -> bool, writeFails: bool)
    requires UsersKeyed(rows, nextId) && UsersUnique(rows)
    ensures var s := RegisterUser(rows, nextId, input, isEmail, writeFails);
      UsersKeyed(s.rows, s.nextId) && UsersUnique(s.rows)
  {
    var s := RegisterUser(rows, nextId, input, isEmail, writeFails);
    if s.result.Ok? {
      assert nextId !in rows;
      forall j, k | j in s.rows && k in s.rows && j != k
        ensures s.rows[j].username != s.rows[k].username && s.rows[j].email != s.rows[k].email
      {
        if j == nextId {
          assert !(k in rows && rows[k].username == input.username);
          assert !(k in rows && rows[k].email == input.email);
        } else if k == nextId {
          assert !(j in rows && rows[j].username == input.username);
          assert !(j in rows && rows[j].email == input.email);
        }
      }
    }
  }

  /** Registering and then logging in with the same email and password yields a token whose claims
      carry the new row's id and the email. Another password is accepted exactly when bcrypt derives
      the same key from it; among passwords of at most 72 bytes without NUL characters, only the
      registered one is. */
  lemma RegisteredUserLogsIn(rows: map<nat, User>, nextId: nat, input: UserRegisterInput, isEmail: string -> bool,
                             attempt: string)
    requires UsersKeyed(rows, nextId) && UsersUnique(rows)
    requires RegisterUser(rows, nextId, input, isEmail, false).result.Ok?
    ensures var s := RegisterUser(rows, nextId, input, isEmail, false);
      && LoginUser(s.rows, s.nextId, UserLoginInput(input.email, input.password), false) == Ok(GenerateToken(nextId, input.email))
      && var login := LoginUser(s.rows, s.nextId, UserLoginInput(input.email, attempt), false);
      && (login.Ok? <==> KeyBytes(Utf8(attempt)) == KeyBytes(Utf8(input.password)))
      && ('\0' !in input.password && '\0' !in attempt && |Utf8(attempt)| <= MaxPasswordBytes ==>
            (login.Ok? <==> attempt == input.password))
  {
    var s := RegisterUser(rows, nextId, input, isEmail, false);
    RegisterKeepsUsersUnique(rows, nextId, input, isEmail, false);
    assert s.rows[nextId].email == input.email;
    FindUserByEmailExact(s.rows, s.nextId, nextId);
    CompareHashExact(input.password, input.password);
    CompareHashExact(input.password, attempt);
  }

  class UserSvc {
    const repo: UserRepo

    constructor (repo: UserRepo)
      ensures this.repo == repo
    {
      this.repo := repo;
    }

    method Register(input: UserRegisterInput, isEmail: string -> bool, writeFails: bool) returns (r: Result<User, DbError>)
      requires repo.db.Valid()
      modifies repo.db`users, repo.db`nextUserId
      ensures repo.db.Valid()
      ensures var s := RegisterUser(old(repo.db.users), old(repo.db.nextUserId), input, isEmail, writeFails);
        r == s.result && repo.db.users == s.rows && repo.db.nextUserId == s.nextId
    {
      r := repo.Save(User(0, input.username, input.email, input.password, input.age), isEmail, writeFails);
    }

    method Login(input: UserLoginInput, readFails: bool) returns (r: Result<Token, string>)
      ensures r == LoginUser(repo.db.users, repo.db.nextUserId, input, readFails)
    {
      var found := repo.FindByEmail(input.email, readFails);
      if found.Err? {
        return Err(LoginFailed);
      }
      var user := found.value;
      if !CompareHash(user.password, input.password) {
        return Err(LoginFailed);
      }
      r := Ok(GenerateToken(user.id, user.email));
    }
  }
}
