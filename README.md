# mygram-api in Dafny

A model of the core of mygram-api, a Go (Gin + GORM) REST API for sharing photos. Users register and
log in and receive a JWT. With that token they post photos, whose image files live in Cloudinary,
comment on photos and keep a list of social-media links. The model covers:

- **Photo lifecycle.** `PhotoService` keeps two stores in step: the photo table and the remote blob
  store.
  - Each service call is a pure function over a `World` (table, next id, blobs) and an `Env` (what
    each external step answers). It returns the result, the new world and the trace of external
    calls in order.
  - The `PhotoSvc` class performs the same steps on a live `Db` and `BlobStore` and is proved to
    match.
  - The invariant `Consistent` holds that every row's image is stored and no two rows share an
    image. Create and Update keep it. Delete keeps it except when the row delete fails after the
    blob is gone, and that exception is proved to break it.
- **Cloudinary helpers.**
  - `publicIdPath` and `getFileNameFromUrl` are modelled on strings, including a model of
    `url.Parse` (scheme, authority and port checks, percent-decoding of path and fragment),
    `path.Base` and `filepath.Ext`. A URL `url.Parse` refuses makes the destroy end the process.
  - Round trip: the public id derived from a Cloudinary secure URL equals the id used to upload it.
  - The SDK answers in three ways: the asset was stored, the API declined in the response body
    with no Go error, or a Go error. The helpers check only the Go error, so a declined upload
    returns an empty URL and a declined destroy reports success.
- **Passwords.** bcrypt works on the password's UTF-8 bytes: hashing refuses more than 72 of them
  (and the helper then ends the process), and a hash accepts any attempt with the same 72 key
  bytes.
- **Auth gate.**
  - Bearer-header parsing and the token checks.
  - The authentication decision.
  - One ownership decision for the photo, comment and social-media routes.
  - The photo-existence check and the body-size limit.
- **Stores and validators.**
  - The four GORM repositories act on one shared `Db` object whose map fields they update.
  - The struct-tag validators and the GORM hooks.
  - The comment, social-media and user services.
  - The login rule, which gives one message for every failure.
- **Photo HTTP handlers.**
  - The content-type, file-presence and extension guards.
  - The mapping from service errors to HTTP statuses.
  - The `GetAll` projection loop.

External capabilities are parameters:
- The Cloudinary SDK's replies (`UploadReply`, `DestroyReply`).
- Database connection failures (`readFails`, `writeFails`).
- `jwt.Parse` (`parse`).
- govalidator's email regex (`isEmail`).
- The fresh UUID (`uuid`).
- The error text of a failure (`errText`).

## Model

| member | source | states |
|---|---|---|
| Text.TrimSuffix | helpers/cloudinary.go:53 | when `s` ends with the suffix, the result followed by the suffix is `s`; otherwise the result is `s` |
| Text.Split | helpers/jwt.go:41 | at least one piece; no piece contains the separator; two or more pieces exactly when the separator occurs |
| Text.SplitJoin | helpers/jwt.go:41 | joining the pieces of `strings.Split` with the separator gives back the original header |
| Text.Atoi | middlewares/authorization.go:18-25 | succeeds exactly on a signed decimal whose value fits in int64; a negative result comes from a leading '-' |
| Text.AtoiValue | handlers/photo.go:84 | the id the handlers use when they drop Atoi's error: the parsed value when Atoi succeeds; the int64 bound of the sign when the digit run after the sign exceeds 2^64-1, whatever follows it (ParseUint's range error comes before any later syntax error); otherwise 0 on a syntax error and the nearest int64 bound when a well-formed number is out of range |
| Text.OverflowBeforeNonDigit | handlers/photo.go:269 | a digit run beyond uint64 followed by a non-digit is an Atoi error whose value is MaxInt64, or MinInt64 after a '-', not 0 |
| Text.IntText | handlers/photo.go:280 | the `%d` rendering: a leading '-' exactly for negatives, plain digits otherwise |
| Text.AtoiIntText | handlers/photo.go:269-280 | Atoi reads back every int64 that `%d` prints |
| Text.AtoiDecimalText | handlers/photo.go:84 | Atoi reads back the decimal text of every non-negative int64 id |
| Bcrypt.HashPassword | helpers/bcrypt.go:9-20 | no hash, where the Go function ends the process with log.Fatal, exactly when the password has more than 72 UTF-8 bytes (GenerateFromPassword's ErrPasswordTooLong); otherwise the hash starts with the `$2a$08$` header, differs from the password and compares equal to it |
| Bcrypt.CompareHashExact | helpers/bcrypt.go:22-25 | a stored hash accepts exactly the attempts whose 72 key bytes (the UTF-8 bytes and a NUL, repeated) equal the password's; among attempts of at most 72 bytes, with no NUL character on either side, that is the password alone |
| Bcrypt.LongerAttemptAccepted | helpers/bcrypt.go:22-25 | only the first 72 bytes count: the hash of a 72-byte password accepts that password followed by anything |
| Jwt.GenerateToken | helpers/jwt.go:14-27 | the token is HS256-signed with exactly the claims `id` and `email`, holding the given values |
| Jwt.SecondField | helpers/jwt.go:41 | index 1 of the split exists exactly when the header has a space, and it contains no space |
| Jwt.VerifyToken | helpers/jwt.go:29-59 | no "Bearer" prefix gives "sign in to proceed"; "Bearer" with no space panics; success exactly when the second field parses with an HMAC method and is valid, returning its claims; every refusal has the same message |
| Jwt.SecondFieldOfBearer | helpers/jwt.go:41 | the second field of `Bearer <tok>` is `tok` |
| Jwt.IssuedTokenVerifies | helpers/jwt.go:14-59 | a token the service issued verifies back to its `id` and `email` claims |
| Jwt.BadTokenRejected | helpers/jwt.go:44-55 | a non-HMAC or invalid token is refused with "sign in to proceed" |
| Jwt.BareBearerPanics | helpers/jwt.go:35-41 | the header `Bearer` alone passes the prefix check and then indexes out of range |
| Middlewares.Authentication | middlewares/authentication.go:11-26 | the chain continues exactly when verification succeeds, storing its claims as userData; a refused token is 401 "UNAUTHENTICATED" with the verification message (the sign-in message when the "Bearer" prefix is missing); a panic while verifying crashes the request |
| Middlewares.ClaimedUserId | middlewares/authorization.go:71-75 | the claimed user id exists exactly when the claims hold a numeric `id`, and is that number |
| Middlewares.OwnerColumn | middlewares/authorization.go:35 | the `user_id` column of the kind's table: the same keys, and each row's owner |
| Middlewares.Authorize | middlewares/authorization.go:57-99 | non-numeric id gives 400 before any lookup; missing row (or failed read) gives 404; a different owner gives 403; the same owner continues; the cases are exclusive, so NotFound wins over Forbidden |
| Middlewares.AuthorizeResource | middlewares/authorization.go:13-143 | the social-media, photo and comment variants are one decision over the kind: continue exactly when the row exists and its owner is the claimed user, 403 exactly when it exists with another owner |
| Middlewares.FindPhoto | middlewares/findPhoto.go:12-37 | non-numeric id gives 400; the request continues exactly when the photo exists; otherwise 404 "photo data doesn't exist"; no ownership check |
| Middlewares.BodySize | middlewares/bodySize.go:10-27 | continue exactly when the declared length is at most 2 << 20 bytes; otherwise 413 |
| Models.UserProjection | models/userImpl.go:10-15 | the output user carries id, username, email and age, and has no password field |
| Models.ValidatePhotoCreate | models/photoImpl.go:11-16 | valid exactly when title, caption and photo URL are non-empty and the user id is not 0; each rule reports its own message exactly when it is broken |
| Models.ValidatePhotoUpdate | models/photoImpl.go:32-38 | the create rules plus a non-zero ID, each with its own message |
| Models.ValidateCommentCreate | models/commentImpl.go:9-13 | valid exactly when the message is non-empty and user and photo ids are not 0; one message per broken rule |
| Models.ValidateCommentUpdate | models/commentImpl.go:26-31 | the create rules plus a non-zero ID |
| Models.ValidateSocialMediaCreate | models/socialMediaImpl.go:10-14 | valid exactly when name and URL are non-empty and the user id is not 0; the URL is checked only for presence |
| Models.ValidateSocialMediaUpdate | models/socialMediaImpl.go:28-33 | the create rules plus a non-zero ID |
| Models.ValidateUserRegister | models/userImpl.go:3-8 | valid exactly when the username is non-empty, the email is non-empty and email-shaped, the password has at least 6 characters and the age is in 8..99; each format message appears exactly when its rule fails on a present value |
| Models.EmailErrors | models/userImpl.go:5 | required, then email format; exactly one message or none |
| Models.PasswordErrors | models/userImpl.go:6 | required, then minimum length 6; exactly one message or none |
| Models.AgeErrors | models/userImpl.go:7 | required (non-zero), then the range 8..99; exactly one message or none |
| Models.PhotoBeforeCreate | models/photo.go:18-28 | the hook accepts exactly a row with title, caption, URL and a non-zero user id |
| Models.PhotoBeforeUpdate | models/photo.go:30-41 | the create rules plus a non-zero ID |
| Models.CommentBeforeCreate | models/comment.go:17-26 | the hook accepts exactly a non-empty message with non-zero user and photo ids |
| Models.CommentBeforeUpdate | models/comment.go:28-38 | the create rules plus a non-zero ID |
| Models.SocialMediaBeforeCreate | models/socialMedia.go:16-25 | the hook accepts exactly a non-empty name and URL with a non-zero user id |
| Models.SocialMediaBeforeUpdate | models/socialMedia.go:27-37 | the create rules plus a non-zero ID |
| Models.UserBeforeCreate | models/user.go:20-35 | rejects exactly when validation reports something, with at least one message; a valid user whose password has more than 72 UTF-8 bytes ends the process (the hashing helper's log.Fatal); otherwise only the password changes, to a hash that differs from it, compares equal to it and is at least 6 characters long |
| Database.OwnerOf | repositories/photo.go:27-29 | the preloaded owner is the password-free projection of the user row, or the empty user when none exists |
| Database.IdsBelowWhere | repositories/comment.go:26-33 | the ids of the rows passing the filter, each once, in increasing order |
| Database.DeleteRow | repositories/photo.go:56-59 | the delete used by all three repositories: removes the row with the entity's id and returns the entity; id 0 is refused as a delete without a WHERE clause; a failed write changes nothing |
| Database.IntOf | services/photo.go:76 | `int(uint)` on 64 bits: the same value up to MaxInt64, wrapped by 2^64 above |
| Database.UintOf | services/comment.go:60-62 | `uint(int)` on 64 bits: inverse of IntOf; negatives wrap by 2^64 |
| Database.Db.constructor | main.go:24 | stands for the freshly migrated database StartDB opens (the database package is not part of this model): the tables start empty, no URL is retired, ids start at 1, and the key invariants and the uniqueness invariants of the `uniqueIndex` tags (models/user.go:11-12, models/socialMedia.go:11) hold |
| Cloudinary.PublicIdPath | helpers/cloudinary.go:36-38 | the public id is "photos/" followed by the file name |
| Cloudinary.UuidIsPlain | helpers/cloudinary.go:58 | a UUID's text has no '/', '.' or control character |
| Cloudinary.UrlPath | helpers/cloudinary.go:40-44 | a path comes back only when `url.Parse` accepts the text: no control character before the fragment, and a well-formed fragment escape; the other refusals are those of RestPath (missing scheme, a ':' in a relative first segment, a bad authority, a malformed path escape) |
| Cloudinary.UrlPathOfHttps | helpers/cloudinary.go:40-49 | for a plain host, the path of `https://host/path` is `/path` with its `%XX` escapes decoded, and there is none when an escape is malformed |
| Cloudinary.UrlPathOfAuthority | helpers/cloudinary.go:40-44 | `https://<authority><path>` fails when parseAuthority refuses the authority, and otherwise yields the decoded path, failing on a malformed escape |
| Cloudinary.UnescapeAfterPlain | helpers/cloudinary.go:41 | unescaping leaves text without '%' as it is and decodes what follows it |
| Cloudinary.EscapedSlashSplitsName | helpers/cloudinary.go:40-54 | an escaped slash `%2F` is decoded before `path.Base`, so the file name of `.../a%2Fb.png` is `b` |
| Cloudinary.MalformedPathEscapeExits | helpers/cloudinary.go:40-44 | a malformed escape in the path of a stored URL makes the destroy end the process |
| Cloudinary.NonNumericPortExits | helpers/cloudinary.go:40-44 | a port with a non-digit makes the destroy end the process |
| Cloudinary.MalformedFragmentExits | helpers/cloudinary.go:40-44 | a malformed escape in the fragment makes the destroy end the process, whatever the rest of the URL |
| Cloudinary.MalformedPathEscapeExample | helpers/cloudinary.go:40-44 | destroying `https://h/%zz.png` ends the process |
| Cloudinary.NonNumericPortExample | helpers/cloudinary.go:40-44 | destroying `https://h:port/x.png` ends the process |
| Cloudinary.MalformedFragmentExample | helpers/cloudinary.go:40-44 | destroying `https://h/x.png#%zz` ends the process |
| Cloudinary.TrimTrailingSlashes | helpers/cloudinary.go:49 | `path.Base` first drops trailing slashes: the result is a prefix with no trailing '/' |
| Cloudinary.PathBase | helpers/cloudinary.go:49 | `path.Base` is never empty and holds no '/' unless it is "/" |
| Cloudinary.PathBaseOf | helpers/cloudinary.go:49 | the base of `dir/tail` is `tail` |
| Cloudinary.Ext | helpers/cloudinary.go:53 | `filepath.Ext` is empty or a suffix starting at the last '.', with no '/' |
| Cloudinary.ExtOf | helpers/cloudinary.go:53 | the extension of `name.format` is `.format` |
| Cloudinary.FileNameFromPathOf | helpers/cloudinary.go:49-53 | the file name of `dir/name.format` is `name`: only the final extension is stripped |
| Cloudinary.FileNameFromUrl | helpers/cloudinary.go:40-54 | there is a file name exactly when the URL parses |
| Cloudinary.FileNameFromSecureUrl | helpers/cloudinary.go:56-77 | for the secure URL of an upload under `photos/<uuid>`, destroy recovers `<uuid>` and the public id `photos/<uuid>` |
| Cloudinary.PublicIdOfUrl | helpers/cloudinary.go:73-77 | the id destroy targets always lies in the "photos/" folder |
| Cloudinary.UploadResult | helpers/cloudinary.go:56-68 | the helper fails exactly when the SDK returns a Go error, passing it on; an asset the store accepted yields a URL that resolves to `photos/<uuid>`, never to user input; an upload the API declined in the response body yields the empty URL as a success |
| Cloudinary.BlobsAfterUpload | helpers/cloudinary.go:60-62 | only an upload the store accepted adds `photos/<uuid>`; a declined or failed one changes nothing |
| Cloudinary.DestroyResult | helpers/cloudinary.go:70-82 | the process ends exactly when the URL does not parse; otherwise the SDK's Go error is returned unchanged, and a destroy the API declined in the response body reports success |
| Cloudinary.BlobsAfterDestroy | helpers/cloudinary.go:73-77 | an accepted destroy removes the URL's public id; a declined or failed one changes nothing; any change comes with a DestroyOk result |
| Cloudinary.BlobsAfterDestroyRemovesAtMostOne | helpers/cloudinary.go:70-82 | destroy removes at most that one id |
| Cloudinary.BlobStore.constructor | helpers/cloudinary.go:18-21 | the store starts with the given cloud and blobs |
| Cloudinary.BlobStore.Upload | helpers/cloudinary.go:56-68 | result and new blob set are those of UploadResult and BlobsAfterUpload |
| Cloudinary.BlobStore.Destroy | helpers/cloudinary.go:70-82 | result and new blob set are those of DestroyResult and BlobsAfterDestroy |
| PhotoRepository.FindAllPhotos | repositories/photo.go:26-31 | fails exactly on a read failure; each entry is a stored row with its password-free owner |
| PhotoRepository.FindAllPhotosComplete | repositories/photo.go:26-31 | every stored photo is listed exactly once, in increasing id order |
| PhotoRepository.FindPhoto | repositories/photo.go:33-38 | succeeds exactly when the id is stored, returning that row with its owner; otherwise record not found |
| PhotoRepository.SavePhoto | repositories/photo.go:40-43 | inserts the row under the next id and returns it, exactly when the hook accepts it and the write succeeds; otherwise nothing changes |
| PhotoRepository.UpdatePhoto | repositories/photo.go:45-54 | writes only title, caption and URL of the matching row; id, owner and other rows are untouched; returns its argument as passed; a missing id changes nothing |
| PhotoRepository.PhotoRepo.constructor | repositories/photo.go:20-24 | the repository works on the given database |
| PhotoRepository.PhotoRepo.FindAll | repositories/photo.go:26-31 | returns FindAllPhotos of the current table |
| PhotoRepository.PhotoRepo.FindById | repositories/photo.go:33-38 | returns FindPhoto of the current table |
| PhotoRepository.PhotoRepo.Save | repositories/photo.go:40-43 | result and table are SavePhoto's; the database invariant is kept |
| PhotoRepository.PhotoRepo.Update | repositories/photo.go:45-54 | result and table are UpdatePhoto's; the database invariant is kept |
| PhotoRepository.PhotoRepo.Delete | repositories/photo.go:56-59 | result and table are DeleteRow's on the photo's id; the database invariant is kept |
| CommentRepository.FindAllComments | repositories/comment.go:26-34 | fails exactly on a read failure; each entry is a stored comment on the given photo with its password-free author |
| CommentRepository.FindAllCommentsComplete | repositories/comment.go:26-34 | every comment on that photo is listed, in increasing id order |
| CommentRepository.FindComment | repositories/comment.go:36-44 | succeeds exactly when the comment id exists and belongs to the given photo |
| CommentRepository.SaveComment | repositories/comment.go:46-49 | inserts under the next id exactly when the hook accepts and the write succeeds |
| CommentRepository.UpdateComment | repositories/comment.go:51-58 | writes only the message of the matching row; ids and other rows are untouched |
| CommentRepository.CommentRepo.constructor | repositories/comment.go:20-24 | the repository works on the given database |
| CommentRepository.CommentRepo.FindAll | repositories/comment.go:26-34 | returns FindAllComments of the current table |
| CommentRepository.CommentRepo.FindById | repositories/comment.go:36-44 | returns FindComment of the current table |
| CommentRepository.CommentRepo.Save | repositories/comment.go:46-49 | result and table are SaveComment's; the invariant is kept |
| CommentRepository.CommentRepo.Update | repositories/comment.go:51-58 | result and table are UpdateComment's; the invariant is kept |
| CommentRepository.CommentRepo.Delete | repositories/comment.go:60-63 | result and table are DeleteRow's on the comment's id; the invariant is kept |
| SocialMediaRepository.FindAllSocialMedias | repositories/socialMedia.go:26-31 | fails exactly on a read failure; each entry is a stored row with its password-free owner |
| SocialMediaRepository.FindAllSocialMediasComplete | repositories/socialMedia.go:26-31 | every row is listed exactly once, in increasing id order |
| SocialMediaRepository.FindSocialMedia | repositories/socialMedia.go:33-38 | succeeds exactly when the id is stored |
| SocialMediaRepository.SaveSocialMedia | repositories/socialMedia.go:40-43 | inserts under the next id exactly when the hook accepts, the unique index does not hold the URL (for a live or a soft-deleted row) and the write succeeds; a held URL is a duplicate-key error |
| SocialMediaRepository.UpdateSocialMedia | repositories/socialMedia.go:45-53 | writes only name and URL of the matching row; owner and other rows are untouched; a URL the index holds for another row, live or soft-deleted, is a duplicate-key error |
| SocialMediaRepository.SoftDeleteSocialMedia | repositories/socialMedia.go:55-58 | GORM's soft delete: the row leaves the live table and, when it existed, its URL joins the URLs the unique index still holds; id 0 is refused; a failed write changes nothing |
| SocialMediaRepository.SocialMediaRepo.constructor | repositories/socialMedia.go:20-24 | the repository works on the given database |
| SocialMediaRepository.SocialMediaRepo.FindAll | repositories/socialMedia.go:26-31 | returns FindAllSocialMedias of the current table |
| SocialMediaRepository.SocialMediaRepo.FindById | repositories/socialMedia.go:33-38 | returns FindSocialMedia of the current table |
| SocialMediaRepository.SocialMediaRepo.Save | repositories/socialMedia.go:40-43 | result and table are SaveSocialMedia's; the invariant (unique URLs) is kept |
| SocialMediaRepository.SocialMediaRepo.Update | repositories/socialMedia.go:45-53 | result and table are UpdateSocialMedia's; the invariant is kept |
| SocialMediaRepository.SocialMediaRepo.Delete | repositories/socialMedia.go:55-58 | result, table and retired URLs are SoftDeleteSocialMedia's on the row's id; the invariant is kept |
| UserRepository.SaveUser | repositories/user.go:23-26 | inserts the user with its hashed password under the next id exactly when the hook hashes it, username and email are unused and the write succeeds; a hook rejection or a process exit in the hook changes nothing; a taken username or email is a duplicate-key error |
| UserRepository.FindUserByEmail | repositories/user.go:28-31 | a found row has exactly the given email and includes the stored hash; it is found exactly when some row has that email |
| UserRepository.FindUserByEmailExact | repositories/user.go:28-31 | with unique emails, looking up a user's email returns that user |
| UserRepository.UserRepo.constructor | repositories/user.go:17-21 | the repository works on the given database |
| UserRepository.UserRepo.Save | repositories/user.go:23-26 | result and table are SaveUser's; unique usernames and emails are kept |
| UserRepository.UserRepo.FindByEmail | repositories/user.go:28-31 | returns FindUserByEmail of the current table |
| PhotoService.FromDb | services/photo.go:70-71 | a repository error is passed on unchanged as the service error |
| PhotoService.CreateValidatesFirst | services/photo.go:42-47 | invalid input (with the "placeholder" URL) fails with no upload, no row and no call |
| PhotoService.CreateIgnoresInputUrl | services/photo.go:43 | the client's photo URL has no effect on Create |
| PhotoService.CreateUploadFailureLeavesNothing | services/photo.go:58-61 | if the upload fails, no row is saved and nothing changes |
| PhotoService.CreateUploadDeclinedRefusedByHook | services/photo.go:58-71 | an upload the API declined gives the insert the empty URL, which the BeforeCreate hook refuses with "photo URL is required": no row, no image, nothing changes |
| PhotoService.CreateStoresUpload | services/photo.go:63-71 | a created row carries the input title, caption and user id and exactly the uploaded image; calls are upload then insert |
| PhotoService.CreateInsertFailureOrphansUpload | services/photo.go:70-71 | if the insert fails after the upload, nothing is destroyed and the blob stays unreferenced |
| PhotoService.CreateKeepsConsistent | services/photo.go:41-72 | Create keeps every row's image stored and distinct |
| PhotoService.UpdateMissingDoesNothing | services/photo.go:76-79 | Update of a missing id fails with no upload, no destroy and no change |
| PhotoService.UpdateWithoutFileKeepsImage | services/photo.go:127-137 | without a file the stored URL is kept, title and caption are overwritten on success, and no blob operation runs |
| PhotoService.UpdateReplacesFoundImage | services/photo.go:81-84 | with a file, the image to replace is the URL found in the row |
| PhotoService.ReplaceImageRewrites | services/photo.go:86-114 | after validation, a readable file and an upload with no Go error, the row is rewritten with the URL the helper returned, and the blob set is the one after the upload |
| PhotoService.UpdateUploadDeclinedRefusedByHook | services/photo.go:97-114 | an upload the API declined gives the row the empty URL, which the BeforeUpdate hook refuses with "photo URL is required": no destroy, nothing changes |
| PhotoService.RewriteRowSteps | services/photo.go:116-124 | the old image is destroyed only after the row update succeeds, and the row then holds the new URL |
| PhotoService.UpdateDestroysLast | services/photo.go:82-124 | any destroy in Update comes last, after find, upload and update, and the row already holds the new image |
| PhotoService.UpdateDestroyFailureKeepsNewRow | services/photo.go:117-124 | a failed destroy returns its error while the row already holds the new URL and both images are stored |
| PhotoService.RewriteRowDestroyRefused | services/photo.go:122-124 | a refused destroy leaves the blobs as they were and the new URL in the row |
| PhotoService.UpdateKeepsConsistent | services/photo.go:74-138 | Update keeps every row's image stored and distinct |
| PhotoService.ReplaceImageKeepsConsistent | services/photo.go:86-124 | the file branch of Update keeps the invariant |
| PhotoService.RewriteRowKeepsConsistent | services/photo.go:107-124 | the row update and destroy keep the invariant once the new image is stored |
| PhotoService.DeleteMissingSkipsStore | services/photo.go:142-145 | Delete of a missing id fails with no blob call and no change |
| PhotoService.DeleteDestroysFirst | services/photo.go:147-155 | the blob is destroyed before the row; a failed destroy leaves the row and blobs intact |
| PhotoService.DeleteKeepsConsistent | services/photo.go:140-156 | Delete keeps the invariant unless the row delete fails after the store accepted the destroy |
| PhotoService.DeleteWriteFailureDangles | services/photo.go:148-155 | when the row delete fails after a successful destroy, the row remains and points to a destroyed image |
| PhotoService.DeleteDeclinedOrphansImage | services/photo.go:147-155 | a destroy the API declined reports no error, so the row is deleted and the call succeeds while its image stays stored with no row naming it |
| PhotoService.PhotoSvc.constructor | services/photo.go:25-29 | the service works on the given repository and blob store |
| PhotoService.PhotoSvc.GetAll | services/photo.go:31-34 | returns the repository's FindAll unchanged |
| PhotoService.PhotoSvc.GetOneById | services/photo.go:36-39 | returns the repository's FindById unchanged |
| PhotoService.PhotoSvc.Create | services/photo.go:41-72 | result, new table and blobs, and call trace are CreateFlow's |
| PhotoService.PhotoSvc.Update | services/photo.go:74-138 | result, new table and blobs, and call trace are UpdateFlow's |
| PhotoService.PhotoSvc.ReplaceStoredImage | services/photo.go:86-124 | result, new state and call trace are those of the file branch of Update |
| PhotoService.PhotoSvc.Delete | services/photo.go:140-156 | result, new table and blobs, and call trace are DeleteFlow's |
| CommentService.CreateComment | services/comment.go:36-45 | the saved comment carries the input message, user id and photo id under the next id, exactly when validation passes and the write succeeds |
| CommentService.UpdateCommentFrom | services/comment.go:47-57 | the returned entity carries the input id, message, user id and photo id; the table changes only in the message of that row |
| CommentService.DeleteCommentById | services/comment.go:59-66 | deletes the row whose id is `uint(commentId)`; id 0 is refused |
| CommentService.CreatedCommentIsFound | services/comment.go:36-45 | a created comment is found again under its photo |
| CommentService.CreatedCommentHiddenFromOtherPhoto | repositories/comment.go:36-44 | a created comment is not found under another photo |
| CommentService.DeleteNegativeIdRemovesNothing | services/comment.go:59-66 | with writeFails false, a negative id wraps to a huge uint that names no row, so Delete reports success and removes nothing (if the driver accepts the wrapped key); over HTTP the authorization middleware answers 404 for a negative id before this is reached |
| CommentService.CommentWritesKeepKeys | services/comment.go:36-66 | create, update and delete keep every comment stored under its own id below the next id |
| CommentService.CommentSvc.constructor | services/comment.go:20-24 | the service works on the given repository |
| CommentService.CommentSvc.GetAll | services/comment.go:26-29 | forwards the photo id unchanged to FindAll |
| CommentService.CommentSvc.GetOneById | services/comment.go:31-34 | forwards photo id and comment id unchanged to FindById |
| CommentService.CommentSvc.Create | services/comment.go:36-45 | result and table are CreateComment's |
| CommentService.CommentSvc.Update | services/comment.go:47-57 | result and table are UpdateCommentFrom's |
| CommentService.CommentSvc.Delete | services/comment.go:59-66 | the error and table are DeleteCommentById's |
| SocialMediaService.CreateSocialMedia | services/socialMedia.go:36-45 | the saved row carries the input name, URL and user id, exactly when validation passes, the index does not hold the URL and the write succeeds |
| SocialMediaService.UpdateSocialMediaFrom | services/socialMedia.go:47-57 | the returned entity carries the input id, name, URL and user id; only name and URL of that row change, and not to a URL the index holds for another row |
| SocialMediaService.DeleteSocialMediaById | services/socialMedia.go:59-66 | soft-deletes the row whose id is `uint(id)`, whose URL stays held; id 0 is refused |
| SocialMediaService.CreatedSocialMediaIsFound | services/socialMedia.go:31-45 | a created row is found again by its id |
| SocialMediaService.SecondCreateOfUrlRefused | models/socialMedia.go:11 | creating a second link with the same URL is a duplicate-key error and changes nothing |
| SocialMediaService.DeletedUrlStaysTaken | models/socialMedia.go:9-11 | after a social media is deleted no live row holds its URL, yet creating that URL again is a duplicate-key error |
| SocialMediaService.SocialMediaWritesKeepUrlsUnique | models/socialMedia.go:9-11 | create, update and delete keep URLs unique among live rows, no live row on a deleted row's URL, and rows under their own ids |
| SocialMediaService.CreateKeepsUrlsUnique | services/socialMedia.go:36-45 | Create keeps URLs unique |
| SocialMediaService.UpdateKeepsUrlsUnique | services/socialMedia.go:47-57 | Update keeps URLs unique |
| SocialMediaService.DeleteKeepsUrlsUnique | services/socialMedia.go:59-66 | Delete keeps URLs unique and adds the deleted row's URL to the held ones |
| SocialMediaService.SocialMediaSvc.constructor | services/socialMedia.go:20-24 | the service works on the given repository |
| SocialMediaService.SocialMediaSvc.GetAll | services/socialMedia.go:26-29 | returns FindAll unchanged |
| SocialMediaService.SocialMediaSvc.GetOneById | services/socialMedia.go:31-34 | forwards the id unchanged to FindById |
| SocialMediaService.SocialMediaSvc.Create | services/socialMedia.go:36-45 | result and table are CreateSocialMedia's |
| SocialMediaService.SocialMediaSvc.Update | services/socialMedia.go:47-57 | result and table are UpdateSocialMediaFrom's |
| SocialMediaService.SocialMediaSvc.Delete | services/socialMedia.go:59-66 | the error, table and retired URLs are DeleteSocialMediaById's |
| UserService.RegisterUser | services/user.go:26-36 | succeeds exactly when the input is valid, the password has at most 72 UTF-8 bytes, username and email are unused and the write succeeds; a valid but longer password ends the process; username, email and age reach the repository unchanged, and the stored password is the hash, never the input |
| UserService.LoginUser | services/user.go:38-57 | every failure has the message "invalid email or password" and no token; a token comes only from a row with that email whose hash matches, built from its id and email |
| UserService.LoginUnknownEmail | services/user.go:44-48 | an unknown email fails with the common message |
| UserService.LoginWrongPassword | services/user.go:50-53 | a wrong password fails with the identical message |
| UserService.RegisterKeepsUsersUnique | models/user.go:11-12 | registration keeps usernames and emails unique |
| UserService.RegisteredUserLogsIn | services/user.go:26-57 | a registered user logs in with the password and gets the token for their id and email; another attempt logs in exactly when it has the same 72 key bytes, which for NUL-free attempts of at most 72 bytes means the same password |
| UserService.UserSvc.constructor | services/user.go:20-24 | the service works on the given repository |
| UserService.UserSvc.Register | services/user.go:26-36 | result and user table are RegisterUser's |
| UserService.UserSvc.Login | services/user.go:38-57 | returns LoginUser of the current table |
| PhotoHandlers.CreateGate | handlers/photo.go:133-163 | the request reaches the service exactly when the Content-Type is not `application/json` and an image file is present; otherwise "invalid content type", then "no photo file uploaded", then "invalid file type", in that order |
| PhotoHandlers.UpdateGate | handlers/photo.go:212-236 | as CreateGate, but the file is optional and its extension is checked only when present |
| PhotoHandlers.JsonWithCharsetPasses | handlers/photo.go:133-142 | only the exact `application/json` is refused; `application/json; charset=utf-8` passes |
| PhotoHandlers.ImageNamesAccepted | handlers/photo.go:155-163 | names ending in .jpg, .jpeg, .png and .webp are accepted |
| PhotoHandlers.CapitalExtensionsRefused | handlers/photo.go:155-163 | the extension check is case-sensitive: .PNG and .JPG are refused |
| PhotoHandlers.SavedOutput | handlers/photo.go:174-180 | the create/update response copies id, title, caption, URL and user id |
| PhotoHandlers.GetOutput | handlers/photo.go:95-106 | the get response copies the row's fields and its password-free owner |
| PhotoHandlers.Projected | handlers/photo.go:54-69 | one response entry per photo, in the same order, each its GetOutput |
| PhotoHandlers.SavedReply | handlers/photo.go:165-181 | success answers the endpoint's status with the saved photo; every service error answers 400 "BAD REQUEST" with its text; a process exit answers nothing |
| PhotoHandlers.DeleteReply | handlers/photo.go:271-281 | success answers 200 with "photo data with id N has been deleted"; every error answers 404 "NOT FOUND" |
| PhotoHandlers.GetAllReply | handlers/photo.go:44-71 | a read error answers 400; otherwise 200 with the projected list |
| PhotoHandlers.GetOneReply | handlers/photo.go:83-108 | a lookup error answers 404; otherwise 200 with the photo and its owner |
| PhotoHandlers.CreateHandled | handlers/photo.go:123-182 | a claims id that is not a number panics; a guard refusal answers 400 with its message and touches nothing |
| PhotoHandlers.UpdateInput | handlers/photo.go:205-210 | the input id is the path id (as `uint`) and the user id comes from the token |
| PhotoHandlers.UpdateHandled | handlers/photo.go:198-255 | a claims id that is not a number panics; a guard refusal answers 400 with its message and touches nothing |
| PhotoHandlers.DeleteHandled | handlers/photo.go:268-282 | the new state and call trace are Delete's on the value Atoi returns for the path, error or not (AtoiValue: 0 on a syntax error, the int64 bound of the sign when the digits overflow), and the answer is DeleteReply of Delete's result: 200 with the id's message, 404 with the error, or the process exits |
| PhotoHandlers.RefusedRequestSkipsService | handlers/photo.go:134-165 | when a guard fails the service is never called: no external call, no state change, no success status |
| PhotoHandlers.CreatedPhotoOwnedByCaller | handlers/photo.go:129-182 | a 201 reply's photo belongs to the token's user and is the row inserted under the next id with the form's title and caption |
| PhotoHandlers.UpdateTargetsPathRow | handlers/photo.go:198-255 | without a file, Update rewrites the row named by the path id and keeps its image; an unknown id answers 400 and changes nothing |
| PhotoHandlers.DeleteMessageRoundTrip | handlers/photo.go:268-282 | the success message prints the id Atoi reads back; a non-numeric path whose digits do not overflow uint64 looks up id 0, answers 404 and changes nothing |
| PhotoHandlers.DeleteOverflowedId | handlers/photo.go:268-282 | a path whose digit run overflows uint64 looks up MaxInt64, or MinInt64 after a '-'; the negative one answers 404 and changes nothing |
| PhotoHandlers.GetAllListsEveryPhoto | handlers/photo.go:44-71 | GET /photos lists every stored photo exactly once, in increasing id order |
| PhotoHandlers.GetOneShowsOwner | handlers/photo.go:83-108 | GET /photos/{id} of a stored id answers 200 with that row and its owner |
| PhotoHandlers.PhotoHandler.constructor | handlers/photo.go:29-33 | the handler works on the given service |
| PhotoHandlers.PhotoHandler.ProjectPhotos | handlers/photo.go:54-69 | the append loop builds exactly Projected of the photos |
| PhotoHandlers.PhotoHandler.GetAll | handlers/photo.go:44-71 | the reply is GetAllReply of the service's list |
| PhotoHandlers.PhotoHandler.GetOneById | handlers/photo.go:83-108 | the reply is GetOneReply of the lookup at the parsed path id |
| PhotoHandlers.PhotoHandler.Create | handlers/photo.go:123-182 | reply, new state and call trace are CreateHandled's |
| PhotoHandlers.PhotoHandler.Update | handlers/photo.go:198-255 | reply, new state and call trace are UpdateHandled's |
| PhotoHandlers.PhotoHandler.Delete | handlers/photo.go:268-282 | reply, new state and call trace are DeleteHandled's |

## Left out

- HTTP and Gin plumbing (binding, `c.Next`, `c.Abort*`, `c.Set`) become returned outcome values. Form binding is not modelled: the handlers take the bound fields as a `PhotoForm` (title, caption, photo URL) and set the user id, and on update the id, from the token and the path.
- PhotoHandlers.CreatedPhotoOwnedByCaller: assumes the request carries no field that binds to `UserID`. The handler sets `UserID` from the token before `c.ShouldBind`, so a form field matching the struct field's name (Gin's fallback when there is no `form` tag) or a JSON key could overwrite it; the model does not capture that overwrite.
- PhotoHandlers.UpdateTargetsPathRow: assumes the request carries no field that binds to `ID` or `UserID`. Both are set before `c.ShouldBind`, which could overwrite them in the same way, making the update target another row than the path names.
- The `Base` timestamps (`created_at`, `updated_at`) are not modelled. Rows carry only their id.
- GORM's soft delete (`deleted_at`) is modelled where it shows: a deleted social media's URL stays in the unique index (`Db.retiredUrls`). Deleted photos and comments simply leave the live table; their rows and ids are not otherwise observable.
- SQL result order is modelled as increasing id, the order of an auto-increment primary key scan.
- Database connection failures are boolean parameters. The SQL text, GORM query building and preload mechanics are not modelled.
- The text of an error (`err.Error()`) is the parameter `errText`. Validation failures are the list of violated rule messages, not govalidator's joined string.
- govalidator's email regex is the parameter `isEmail`.
- bcrypt's salt, cost and Blowfish rounds are not modelled. `Bcrypt.Digest` is a deterministic stand-in over the 72 key bytes bcrypt reads, so two passwords are told apart exactly when their key bytes differ; real bcrypt is taken to be collision-free in the same way.
- Bcrypt.HashPassword: follows golang.org/x/crypto releases in which GenerateFromPassword refuses more than 72 bytes. Older releases hash the first 72 bytes instead, and registration then never ends the process.
- JWT signing and the secret key are not modelled. `jwt.Parse` is the parameter `parse`.
- Middlewares.ClaimedUserId: the claims id is taken as a natural number, not the `float64` it is in the Go code. The cast `uint(userData["id"].(float64))` and its rounding are not modelled.
- The UUID generator is the parameter `uuid`, assumed fresh. Cloudinary replies are parameters. The shape of the secure URL follows Cloudinary's delivery URL format.
- Cloudinary.UrlPath: an escape `%XX` decodes to the character with code XX. Go decodes it to a byte, so the model differs from Go for XX of 0x80 and above, where Go's path holds raw UTF-8 bytes. The check newer Go releases make that a bracketed host is an IPv6 address is not modelled; the authority's port, brackets, zone, escapes and userinfo are.
- Log output (`log.Printf`) is not modelled. `log.Fatal` is modelled as the outcome `Exited` / `ProcessExited`.
- The race between reading a photo's old URL and destroying it is not modelled. Every operation is sequential.
- The `BodySizeMiddleware` wraps the body in `http.MaxBytesReader`. Only the declared-length check is modelled; the reader cap is I/O.
- handlers/comment.go, handlers/socialMedia.go, handlers/user.go, main.go, helpers/headerValue.go and `InitCloudinary` are not part of this model.
- The `ON DELETE SET NULL` constraints on a user's photos, comments and social media are not modelled, because no modelled operation deletes a user.
- PhotoHandlers.CreateHandled: its contract states only the panic and guard cases. The service path is stated by `CreatedPhotoOwnedByCaller`, `RefusedRequestSkipsService` and the `PhotoService` lemmas about `CreateFlow`.
- PhotoHandlers.UpdateHandled: its contract states only the panic and guard cases. The service path is stated by `UpdateTargetsPathRow` and the `PhotoService` lemmas about `UpdateFlow`.
