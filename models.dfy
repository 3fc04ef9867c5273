/** The entities, request inputs and response shapes of models/, with the validation rules their
    struct tags declare (govalidator `valid:"required~…"`, `minstringlength`, `range`, `email`) and
    the GORM BeforeCreate/BeforeUpdate hooks that re-run those rules before a row is written.

    A validation outcome is the list of violated rules' messages, in field order: empty means valid.
    Every id is Base.ID or a foreign key (a Go uint); `0` is the zero value `required` rejects. */
module Models {
  import opened Wrappers
  import Bcrypt

  // ---- entities (table rows) ----

  datatype User = User(id: nat, username: string, email: string, password: string, age: int)

  datatype Photo = Photo(id: nat, title: string, caption: string, photoUrl: string, userId: nat)

  datatype Comment = Comment(id: nat, message: string, userId: nat, photoId: nat)

  datatype SocialMedia = SocialMedia(id: nat, name: string, socialMediaUrl: string, userId: nat)

  // ---- request inputs ----

  datatype PhotoCreateInput = PhotoCreateInput(title: string, caption: string, photoUrl: string, userId: nat)

  datatype PhotoUpdateInput = PhotoUpdateInput(id: nat, title: string, caption: string, photoUrl: string, userId: nat)

  datatype CommentCreateInput = CommentCreateInput(message: string, userId: nat, photoId: nat)

  datatype CommentUpdateInput = CommentUpdateInput(id: nat, message: string, userId: nat, photoId: nat)

  datatype SocialMediaCreateInput = SocialMediaCreateInput(name: string, socialMediaUrl: string, userId: nat)

  datatype SocialMediaUpdateInput = SocialMediaUpdateInput(id: nat, name: string, socialMediaUrl: string, userId: nat)

  datatype UserRegisterInput = UserRegisterInput(username: string, email: string, password: string, age: int)

  /** Login input: no validation rules at all. */
  datatype UserLoginInput = UserLoginInput(email: string, password: string)

  // ---- response shapes ----

  /** The owner projection joined into every read: it has no password field. */
  datatype UserRegisterOutput = UserRegisterOutput(id: nat, username: string, email: string, age: int)

  datatype PhotoGetOutput = PhotoGetOutput(id: nat, title: string, caption: string, photoUrl: string, user: UserRegisterOutput)

  datatype PhotoCreateOutput = PhotoCreateOutput(id: nat, title: string, caption: string, photoUrl: string, userId: nat)

  /** The update response is the create response's type. */
  type PhotoUpdateOutput = PhotoCreateOutput

  datatype CommentGetOutput = CommentGetOutput(id: nat, message: string, user: UserRegisterOutput)

  datatype CommentCreateOutput = CommentCreateOutput(id: nat, message: string, userId: nat, photoId: nat)

  type CommentUpdateOutput = CommentCreateOutput

  datatype SocialMediaGetOutput = SocialMediaGetOutput(id: nat, name: string, socialMediaUrl: string, user: UserRegisterOutput)

  datatype SocialMediaCreateOutput = SocialMediaCreateOutput(id: nat, name: string, socialMediaUrl: string, userId: nat)

  type SocialMediaUpdateOutput = SocialMediaCreateOutput

  datatype ErrorResponse = ErrorResponse(error: string, message: string)

  datatype DeleteResponse = DeleteResponse(message: string)

  /** A user as the owner projection sees it (username, id, email, age). */
  function UserProjection(u: User): (o: UserRegisterOutput)
    ensures o.id == u.id && o.username == u.username && o.email == u.email && o.age == u.age
  {
    UserRegisterOutput(u.id, u.username, u.email, u.age)
  }

  /** The zero-value projection Preload leaves when no user row matches. */
  const NoUser: UserRegisterOutput := UserRegisterOutput(0, "", "", 0)

  // ---- rules ----

  /** `required` on a string field. */
  function RequiredText(value: string, message: string): seq<string> {
    if value == "" then [message] else []
  }

  /** `required` on a uint field: the zero value is missing. */
  function RequiredId(value: nat, message: string): seq<string> {
    if value == 0 then [message] else []
  }

  function ValidatePhotoCreate(i: PhotoCreateInput): (errs: seq<string>)
    ensures errs == [] <==> i.title != "" && i.caption != "" && i.photoUrl != "" && i.userId != 0
    ensures ("title is required" in errs) <==> i.title == ""
    ensures ("caption is required" in errs) <==> i.caption == ""
    ensures ("photo URL is required" in errs) <==> i.photoUrl == ""
    ensures ("user ID is required" in errs) <==> i.userId == 0
  {
    RequiredText(i.title, "title is required")
      + RequiredText(i.caption, "caption is required")
      + RequiredText(i.photoUrl, "photo URL is required")
      + RequiredId(i.userId, "user ID is required")
  }

  function ValidatePhotoUpdate(i: PhotoUpdateInput): (errs: seq<string>)
    ensures errs == [] <==> i.id != 0 && ValidatePhotoCreate(PhotoCreateInput(i.title, i.caption, i.photoUrl, i.userId)) == []
    ensures ("ID is required" in errs) <==> i.id == 0
    ensures ("title is required" in errs) <==> i.title == ""
    ensures ("caption is required" in errs) <==> i.caption == ""
    ensures ("photo URL is required" in errs) <==> i.photoUrl == ""
    ensures ("user ID is required" in errs) <==> i.userId == 0
  {
    RequiredId(i.id, "ID is required")
      + ValidatePhotoCreate(PhotoCreateInput(i.title, i.caption, i.photoUrl, i.userId))
  }

  function ValidateCommentCreate(i: CommentCreateInput): (errs: seq<string>)
    ensures errs == [] <==> i.message != "" && i.userId != 0 && i.photoId != 0
    ensures ("message is required" in errs) <==> i.message == ""
    ensures ("user ID is required" in errs) <==> i.userId == 0
    ensures ("photo ID is required" in errs) <==> i.photoId == 0
  {
    RequiredText(i.message, "message is required")
      + RequiredId(i.userId, "user ID is required")
      + RequiredId(i.photoId, "photo ID is required")
  }

  function ValidateCommentUpdate(i: CommentUpdateInput): (errs: seq<string>)
    ensures errs == [] <==> i.id != 0 && ValidateCommentCreate(CommentCreateInput(i.message, i.userId, i.photoId)) == []
    ensures ("ID is required" in errs) <==> i.id == 0
  {
    RequiredId(i.id, "ID is required")
      + ValidateCommentCreate(CommentCreateInput(i.message, i.userId, i.photoId))
  }

  /** The URL is only checked for presence: there is no format rule. */
  function ValidateSocialMediaCreate(i: SocialMediaCreateInput): (errs: seq<string>)
    ensures errs == [] <==> i.name != "" && i.socialMediaUrl != "" && i.userId != 0
    ensures ("name is required" in errs) <==> i.name == ""
    ensures ("social media URL is required" in errs) <==> i.socialMediaUrl == ""
    ensures ("user ID is required" in errs) <==> i.userId == 0
  {
    RequiredText(i.name, "name is required")
      + RequiredText(i.socialMediaUrl, "social media URL is required")
      + RequiredId(i.userId, "user ID is required")
  }

  function ValidateSocialMediaUpdate(i: SocialMediaUpdateInput): (errs: seq<string>)
    ensures errs == [] <==> i.id != 0 && ValidateSocialMediaCreate(SocialMediaCreateInput(i.name, i.socialMediaUrl, i.userId)) == []
    ensures ("ID is required" in errs) <==> i.id == 0
  {
    RequiredId(i.id, "ID is required")
      + ValidateSocialMediaCreate(SocialMediaCreateInput(i.name, i.socialMediaUrl, i.userId))
  }

  const MinPasswordLength: nat := 6
  const MinAge: int := 8
  const MaxAge: int := 99

  /** The register rules. A field whose `required` fails reports only that; otherwise its second
      rule is checked. `isEmail` is govalidator's email-format test, which is not modelled. */
  function ValidateUserRegister(i: UserRegisterInput, isEmail: string -> bool): (errs: seq<string>)
    ensures errs == [] <==>
      && i.username != ""
      && i.email != "" && isEmail(i.email)
      && |i.password| >= MinPasswordLength
      && MinAge <= i.age <= MaxAge
    ensures ("invalid email format" in errs) <==> i.email != "" && !isEmail(i.email)
    ensures ("password must have a minimum length of 6 characters" in errs) <==> 0 < |i.password| < MinPasswordLength
    ensures ("user must be at least 8 years old" in errs) <==> i.age != 0 && !(MinAge <= i.age <= MaxAge)
  {
    RequiredText(i.username, "username is required") + EmailErrors(i.email, isEmail)
      + PasswordErrors(i.password) + AgeErrors(i.age)
  }

  function EmailErrors(email: string, isEmail: string -> bool): (errs: seq<string>)
    ensures errs == [] <==> email != "" && isEmail(email)
    ensures errs == [] || errs == ["email is required"] || errs == ["invalid email format"]
    ensures errs == ["invalid email format"] <==> email != "" && !isEmail(email)
  {
    if email == "" then ["email is required"]
    else if !isEmail(email) then ["invalid email format"] else []
  }

  function PasswordErrors(password: string): (errs: seq<string>)
    ensures errs == [] <==> |password| >= MinPasswordLength
    ensures errs == [] || errs == ["password is required"]
         || errs == ["password must have a minimum length of 6 characters"]
    ensures errs == ["password must have a minimum length of 6 characters"] <==> 0 < |password| < MinPasswordLength
  {
    if password == "" then ["password is required"]
    else if |password| < MinPasswordLength then ["password must have a minimum length of 6 characters"] else []
  }

  function AgeErrors(age: int): (errs: seq<string>)
    ensures errs == [] <==> MinAge <= age <= MaxAge
    ensures errs == [] || errs == ["age is required"] || errs == ["user must be at least 8 years old"]
    ensures errs == ["user must be at least 8 years old"] <==> age != 0 && !(MinAge <= age <= MaxAge)
  {
    if age == 0 then ["age is required"]
    else if !(MinAge <= age <= MaxAge) then ["user must be at least 8 years old"] else []
  }

  // ---- GORM hooks: they validate the row about to be written and change no field ----

  function PhotoBeforeCreate(p: Photo): (errs: seq<string>)
    ensures errs == [] <==> p.title != "" && p.caption != "" && p.photoUrl != "" && p.userId != 0
  {
    ValidatePhotoCreate(PhotoCreateInput(p.title, p.caption, p.photoUrl, p.userId))
  }

  function PhotoBeforeUpdate(p: Photo): (errs: seq<string>)
    ensures errs == [] <==> p.id != 0 && PhotoBeforeCreate(p) == []
  {
    ValidatePhotoUpdate(PhotoUpdateInput(p.id, p.title, p.caption, p.photoUrl, p.userId))
  }

  function CommentBeforeCreate(c: Comment): (errs: seq<string>)
    ensures errs == [] <==> c.message != "" && c.userId != 0 && c.photoId != 0
  {
    ValidateCommentCreate(CommentCreateInput(c.message, c.userId, c.photoId))
  }

  function CommentBeforeUpdate(c: Comment): (errs: seq<string>)
    ensures errs == [] <==> c.id != 0 && CommentBeforeCreate(c) == []
  {
    ValidateCommentUpdate(CommentUpdateInput(c.id, c.message, c.userId, c.photoId))
  }

  function SocialMediaBeforeCreate(s: SocialMedia): (errs: seq<string>)
    ensures errs == [] <==> s.name != "" && s.socialMediaUrl != "" && s.userId != 0
  {
    ValidateSocialMediaCreate(SocialMediaCreateInput(s.name, s.socialMediaUrl, s.userId))
  }

  function SocialMediaBeforeUpdate(s: SocialMedia): (errs: seq<string>)
    ensures errs == [] <==> s.id != 0 && SocialMediaBeforeCreate(s) == []
  {
    ValidateSocialMediaUpdate(SocialMediaUpdateInput(s.id, s.name, s.socialMediaUrl, s.userId))
  }

  /** The User BeforeCreate hook's outcome: the user with its password replaced by the digest, the
      validation messages, or the process ending inside HashPassword (log.Fatal on a password
      GenerateFromPassword refuses). */
  datatype UserHookOutcome = Hashed(user: User) | Rejected(violations: seq<string>) | HashExited

  /** User BeforeCreate: validate first; only a valid user has its password hashed, and a valid
      password longer than bcrypt's 72 bytes ends the process. */
  function UserBeforeCreate(u: User, isEmail: string -> bool): (r: UserHookOutcome)
    ensures r.Rejected? <==> ValidateUserRegister(UserRegisterInput(u.username, u.email, u.password, u.age), isEmail) != []
    ensures r.Rejected? ==> r.violations != []
    ensures r.HashExited? <==>
      && ValidateUserRegister(UserRegisterInput(u.username, u.email, u.password, u.age), isEmail) == []
      && |Bcrypt.Utf8(u.password)| > Bcrypt.MaxPasswordBytes
    ensures r.Hashed? ==> r.user == u.(password := Bcrypt.HashPassword(u.password).value)
    ensures r.Hashed? ==>
      r.user.password != u.password && Bcrypt.CompareHash(r.user.password, u.password) && |u.password| >= MinPasswordLength
  {
    var errs := ValidateUserRegister(UserRegisterInput(u.username, u.email, u.password, u.age), isEmail);
    if errs != [] then Rejected(errs)
    else
      match Bcrypt.HashPassword(u.password)
      case None => HashExited
      case Some(digest) => Hashed(u.(password := digest))
  }
}
