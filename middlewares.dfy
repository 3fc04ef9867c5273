/** The request gates (middlewares/): authentication, per-resource ownership, photo existence and
    the body-size limit. Each one either lets the request through or aborts it with a status and
    an error body; a runtime panic inside a gate is the outcome `Crash`. */
module Middlewares {
  import opened Wrappers
  import opened Text
  import opened Models
  import opened Database
  import opened Jwt

  datatype Decision = Next | Abort(status: nat, body: ErrorResponse) | Crash

  /** Authentication's outcome: the claims it stores under "userData", or a decision that stops
      the request. */
  datatype AuthOutcome = Authenticated(userData: Claims) | Stopped(decision: Decision)

  const StatusBadRequest: nat := 400
  const StatusUnauthorized: nat := 401
  const StatusForbidden: nat := 403
  const StatusNotFound: nat := 404
  const StatusRequestEntityTooLarge: nat := 413

  const InvalidParameter: ErrorResponse := ErrorResponse("BAD REQUEST", "invalid parameter")
  const DataMissing: ErrorResponse := ErrorResponse("NOT FOUND", "data doesn't exist")
  const NotOwner: ErrorResponse := ErrorResponse("FORBIDDEN", "you are not allowed to access this data")
  const PhotoMissing: ErrorResponse := ErrorResponse("NOT FOUND", "photo data doesn't exist")
  const TooLarge: ErrorResponse := ErrorResponse("REQUEST ENTITY TOO LARGE", "request body (file uploaded) too large")

  /** Authentication: a verified token's claims go on; any refusal becomes 401 with the
      verifier's message; a panic in the verifier is a crash. */
  function Authentication(header: string, parse: string -> ParsedToken): (o: AuthOutcome)
    ensures o.Authenticated? <==> VerifyToken(header, parse).Verified?
    ensures o.Authenticated? ==> o.userData == VerifyToken(header, parse).claims
    ensures VerifyToken(header, parse).Rejected? ==>
      o == Stopped(Abort(StatusUnauthorized, ErrorResponse("UNAUTHENTICATED", SignInMessage)))
    ensures !HasPrefix(header, BearerPrefix) ==>
      o == Stopped(Abort(StatusUnauthorized, ErrorResponse("UNAUTHENTICATED", SignInMessage)))
    ensures VerifyToken(header, parse).Panicked? ==> o == Stopped(Crash)
  {
    match VerifyToken(header, parse)
    case Verified(claims) => Authenticated(claims)
    case Rejected(message) => Stopped(Abort(StatusUnauthorized, ErrorResponse("UNAUTHENTICATED", message)))
    case Panicked => Stopped(Crash)
  }

  /** The caller's id in the stored claims; the `.(float64)` assertion panics without a number. */
  function ClaimedUserId(userData: Claims): (r: Option<nat>)
    ensures r.Some? <==> "id" in userData && userData["id"].Number?
    ensures r.Some? ==> userData["id"] == Number(r.value)
  {
    if "id" in userData && userData["id"].Number? then Some(userData["id"].n) else None
  }

  /** The three ownership gates differ only in the route parameter and the table they read. */
  datatype ResourceKind = SocialMediaResource | PhotoResource | CommentResource

  function ParamName(kind: ResourceKind): string {
    match kind
    case SocialMediaResource => "socialMediaId"
    case PhotoResource => "photoId"
    case CommentResource => "commentId"
  }

  /** The user_id column of the kind's table, by row id. */
  function OwnerColumn(db: Db, kind: ResourceKind): (owners: map<nat, nat>)
    reads db
    ensures kind.SocialMediaResource? ==>
      owners.Keys == db.socialMedias.Keys && forall k :: k in owners ==> owners[k] == db.socialMedias[k].userId
    ensures kind.PhotoResource? ==>
      owners.Keys == db.photos.Keys && forall k :: k in owners ==> owners[k] == db.photos[k].userId
    ensures kind.CommentResource? ==>
      owners.Keys == db.comments.Keys && forall k :: k in owners ==> owners[k] == db.comments[k].userId
  {
    match kind
    case SocialMediaResource => map k | k in db.socialMedias :: db.socialMedias[k].userId
    case PhotoResource => map k | k in db.photos :: db.photos[k].userId
    case CommentResource => map k | k in db.comments :: db.comments[k].userId
  }

  /** A route parameter as gin reports it: the empty string when the route has none. */
  function Param(params: map<string, string>, name: string): string {
    if name in params then params[name] else ""
  }

  /** The ownership check shared by SocialMedia-, Photo- and CommentAuthorization: the parameter
      must parse (else 400), the caller's id is read from the claims (a panic without one), the
      row must be readable (else 404), and its owner must be the caller (else 403). */
  function Authorize(param: string, userData: Claims, owners: map<nat, nat>, readFails: bool): (d: Decision)
    ensures Atoi(param).None? ==> d == Abort(StatusBadRequest, InvalidParameter)
    ensures Atoi(param).Some? && ClaimedUserId(userData).None? ==> d == Crash
    ensures d == Abort(StatusNotFound, DataMissing) <==>
      && Atoi(param).Some? && ClaimedUserId(userData).Some?
      && (readFails || Atoi(param).value < 0 || Atoi(param).value as nat !in owners)
    ensures d == Next <==>
      && Atoi(param).Some? && ClaimedUserId(userData).Some? && !readFails
      && 0 <= Atoi(param).value && Atoi(param).value as nat in owners
      && owners[Atoi(param).value as nat] == ClaimedUserId(userData).value
    ensures d == Abort(StatusForbidden, NotOwner) <==>
      && Atoi(param).Some? && ClaimedUserId(userData).Some? && !readFails
      && 0 <= Atoi(param).value && Atoi(param).value as nat in owners
      && owners[Atoi(param).value as nat] != ClaimedUserId(userData).value
  {
    match Atoi(param)
    case None => Abort(StatusBadRequest, InvalidParameter)
    case Some(id) =>
      match ClaimedUserId(userData)
      case None => Crash
      case Some(caller) =>
        if readFails || id < 0 || id as nat !in owners then Abort(StatusNotFound, DataMissing)
        else if owners[id as nat] != caller then Abort(StatusForbidden, NotOwner)
        else Next
  }

  /** The ownership gate for one kind of resource, over the live tables: whatever the kind, the
      owner of an existing row is let through and anybody else is refused with 403. */
  function AuthorizeResource(kind: ResourceKind, params: map<string, string>, userData: Claims, db: Db, readFails: bool)
    : (d: Decision)
    reads db
    ensures var id := Atoi(Param(params, ParamName(kind)));
      d == Next <==>
        && id.Some? && ClaimedUserId(userData).Some? && !readFails
        && 0 <= id.value && id.value as nat in OwnerColumn(db, kind)
        && OwnerColumn(db, kind)[id.value as nat] == ClaimedUserId(userData).value
    ensures var id := Atoi(Param(params, ParamName(kind)));
      d == Abort(StatusForbidden, NotOwner) <==>
        && id.Some? && ClaimedUserId(userData).Some? && !readFails
        && 0 <= id.value && id.value as nat in OwnerColumn(db, kind)
        && OwnerColumn(db, kind)[id.value as nat] != ClaimedUserId(userData).value
  {
    Authorize(Param(params, ParamName(kind)), userData, OwnerColumn(db, kind), readFails)
  }

  /** FindPhoto: the photoId parameter must parse (else 400) and name an existing photo (else 404). */
  function FindPhoto(param: string, photos: map<nat, Photo>, readFails: bool): (d: Decision)
    ensures Atoi(param).None? ==> d == Abort(StatusBadRequest, InvalidParameter)
    ensures d == Next <==> Atoi(param).Some? && !readFails && 0 <= Atoi(param).value && Atoi(param).value as nat in photos
    ensures Atoi(param).Some? && d != Next ==> d == Abort(StatusNotFound, PhotoMissing)
  {
    match Atoi(param)
    case None => Abort(StatusBadRequest, InvalidParameter)
    case Some(id) =>
      if readFails || id < 0 || id as nat !in photos then Abort(StatusNotFound, PhotoMissing) else Next
  }

  /** 2 << 20 bytes: 2 MiB. */
  const MaxBodyBytes: int := 2097152

  /** BodySizeMiddleware: a declared length above the limit is refused with 413; an unknown length
      (-1) or any length up to the limit passes. */
  function BodySize(contentLength: int): (d: Decision)
    ensures d == Next <==> contentLength <= MaxBodyBytes
    ensures d != Next ==> d == Abort(StatusRequestEntityTooLarge, TooLarge)
  {
    if contentLength > MaxBodyBytes then Abort(StatusRequestEntityTooLarge, TooLarge) else Next
  }
}
