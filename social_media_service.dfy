/** The social-media service (services/socialMedia.go): it turns the handler's inputs into rows and
    hands them to the social-media repository, whose unique index on the URL may refuse them. */
module SocialMediaService {
  import opened Wrappers
  import opened Text
  import opened Models
  import opened Database
  import opened SocialMediaRepository

  /** Create: a new row made of the input's name, URL and owner, saved under the next id unless the
      unique index already holds the URL, for a live or a deleted row. */
  function CreateSocialMedia(rows: map<nat, SocialMedia>, retired: set<string>, nextId: nat,
                             input: SocialMediaCreateInput, writeFails: bool): (s: Saved<SocialMedia>)
    ensures s.result.Ok? <==>
      ValidateSocialMediaCreate(input) == [] && !UrlHeld(rows, retired, input.socialMediaUrl, 0) && !writeFails
    ensures ValidateSocialMediaCreate(input) != [] ==>
      s.result == Err(HookRejected(ValidateSocialMediaCreate(input)))
    ensures ValidateSocialMediaCreate(input) == [] && UrlHeld(rows, retired, input.socialMediaUrl, 0) ==>
      s.result == Err(DuplicateKey(UrlColumn))
    ensures s.result.Ok? ==>
      && s.result.value == SocialMedia(nextId, input.name, input.socialMediaUrl, input.userId)
      && s.rows == rows[nextId := s.result.value] && s.nextId == nextId + 1
    ensures s.result.Err? ==> s.rows == rows && s.nextId == nextId
  {
    SaveSocialMedia(rows, retired, nextId, SocialMedia(0, input.name, input.socialMediaUrl, input.userId), writeFails)
  }

  /** Update: the input's id selects the row; only its name and URL can change, and not to a URL
      the index holds for another row. */
  function UpdateSocialMediaFrom(rows: map<nat, SocialMedia>, retired: set<string>, input: SocialMediaUpdateInput,
                                 writeFails: bool): (w: Written<SocialMedia>)
    ensures w.result.Ok? <==>
      && ValidateSocialMediaUpdate(input) == []
      && !(input.id in rows && UrlHeld(rows, retired, input.socialMediaUrl, input.id))
      && !writeFails
    ensures ValidateSocialMediaUpdate(input) != [] ==>
      w.result == Err(HookRejected(ValidateSocialMediaUpdate(input)))
    ensures && ValidateSocialMediaUpdate(input) == [] && input.id in rows
            && UrlHeld(rows, retired, input.socialMediaUrl, input.id)
            ==> w.result == Err(DuplicateKey(UrlColumn))
    ensures w.result.Ok? ==>
      w.result.value == SocialMedia(input.id, input.name, input.socialMediaUrl, input.userId)
    ensures w.result.Err? ==> w.rows == rows
    ensures w.rows.Keys == rows.Keys
    ensures forall k :: k in rows && k != input.id ==> w.rows[k] == rows[k]
    ensures input.id in rows ==>
      w.rows[input.id].id == rows[input.id].id && w.rows[input.id].userId == rows[input.id].userId
    ensures w.result.Ok? && input.id in rows ==>
      w.rows[input.id].name == input.name && w.rows[input.id].socialMediaUrl == input.socialMediaUrl
  {
    UpdateSocialMedia(rows, retired, SocialMedia(input.id, input.name, input.socialMediaUrl, input.userId), writeFails)
  }

  /** Delete: the row key is `uint(id)`; a deleted row's URL stays held by the index. */
  function DeleteSocialMediaById(rows: map<nat, SocialMedia>, retired: set<string>, id: int, writeFails: bool)
    : (d: SoftDeleted)
    requires MinInt64 <= id <= MaxInt64
    ensures id == 0 ==> d.result == Err(MissingWhereClause)
    ensures d.result.Ok? <==> id != 0 && !writeFails
    ensures d.result.Ok? && 0 < id ==> d.rows == rows - {id as nat}
    ensures d.result.Ok? && id < 0 ==> d.rows == rows - {(id + Uint64Modulus) as nat}
    ensures d.result.Err? ==> d.rows == rows && d.retired == retired
    ensures d.result.Ok? && 0 < id && id as nat in rows ==> d.retired == retired + {rows[id as nat].socialMediaUrl}
  {
    SoftDeleteSocialMedia(rows, retired, SocialMedia(UintOf(id), "", "", 0), writeFails)
  }

  /** A social media just created is found again under the id it was given, with its owner. */
  lemma CreatedSocialMediaIsFound(rows: map<nat, SocialMedia>, retired: set<string>, nextId: nat,
                                  users: map<nat, User>, input: SocialMediaCreateInput)
    requires ValidateSocialMediaCreate(input) == [] && !UrlHeld(rows, retired, input.socialMediaUrl, 0)
    ensures var s := CreateSocialMedia(rows, retired, nextId, input, false);
      && s.result.Ok?
      && FindSocialMedia(s.rows, users, nextId, false)
         == Ok(Loaded(s.result.value, OwnerOf(users, input.userId)))
  {
  }

  /** Creating the same URL twice: the second request is refused as a duplicate and changes nothing. */
  lemma SecondCreateOfUrlRefused(rows: map<nat, SocialMedia>, retired: set<string>, nextId: nat,
                                 first: SocialMediaCreateInput, second: SocialMediaCreateInput, writeFails: bool)
    requires ValidateSocialMediaCreate(first) == [] && !UrlHeld(rows, retired, first.socialMediaUrl, 0)
    requires ValidateSocialMediaCreate(second) == [] && second.socialMediaUrl == first.socialMediaUrl
    requires SocialMediasKeyed(rows, nextId)
    ensures var s1 := CreateSocialMedia(rows, retired, nextId, first, false);
      var s2 := CreateSocialMedia(s1.rows, retired, s1.nextId, second, writeFails);
      && s2.result == Err(DuplicateKey(UrlColumn))
      && s2.rows == s1.rows
  {
    var s1 := CreateSocialMedia(rows, retired, nextId, first, false);
    assert s1.rows[nextId].socialMediaUrl == second.socialMediaUrl;
    assert UrlTaken(s1.rows, second.socialMediaUrl, 0);
  }

  /** A deleted social media's URL stays in the unique index: creating it again, by anyone, is
      refused as a duplicate even though no live row holds it. */
  lemma DeletedUrlStaysTaken(rows: map<nat, SocialMedia>, retired: set<string>, nextId: nat, id: int,
                             again: SocialMediaCreateInput, writeFails: bool)
    requires 0 < id <= MaxInt64 && id as nat in rows && SocialMediaUrlsUnique(rows)
    requires ValidateSocialMediaCreate(again) == [] && again.socialMediaUrl == rows[id as nat].socialMediaUrl
    ensures var d := DeleteSocialMediaById(rows, retired, id, false);
      var s := CreateSocialMedia(d.rows, d.retired, nextId, again, writeFails);
      && d.result.Ok?
      && !UrlTaken(d.rows, again.socialMediaUrl, 0)
      && s.result == Err(DuplicateKey(UrlColumn))
      && s.rows == d.rows
  {
    var d := DeleteSocialMediaById(rows, retired, id, false);
    var k0 := id as nat;
    forall k | k in d.rows && k != 0
      ensures d.rows[k].socialMediaUrl != again.socialMediaUrl
    {
      assert k != k0 && d.rows[k] == rows[k];
    }
  }

  /** Create, update and delete keep every key a row id below the counter, every URL on at most
      one live row, and no live row on a URL a deleted one holds. */
  lemma SocialMediaWritesKeepUrlsUnique(rows: map<nat, SocialMedia>, retired: set<string>, nextId: nat,
                                        create: SocialMediaCreateInput, update: SocialMediaUpdateInput, id: int,
                                        writeFails: bool)
    requires SocialMediasKeyed(rows, nextId) && SocialMediaUrlsUnique(rows) && LiveUrlsNotRetired(rows, retired)
    requires MinInt64 <= id <= MaxInt64
    ensures var s := CreateSocialMedia(rows, retired, nextId, create, writeFails);
      SocialMediasKeyed(s.rows, s.nextId) && SocialMediaUrlsUnique(s.rows) && LiveUrlsNotRetired(s.rows, retired)
    ensures var u := UpdateSocialMediaFrom(rows, retired, update, writeFails);
      SocialMediasKeyed(u.rows, nextId) && SocialMediaUrlsUnique(u.rows) && LiveUrlsNotRetired(u.rows, retired)
    ensures var d := DeleteSocialMediaById(rows, retired, id, writeFails);
      SocialMediasKeyed(d.rows, nextId) && SocialMediaUrlsUnique(d.rows) && LiveUrlsNotRetired(d.rows, d.retired)
  {
    CreateKeepsUrlsUnique(rows, retired, nextId, create, writeFails);
    UpdateKeepsUrlsUnique(rows, retired, nextId, update, writeFails);
    DeleteKeepsUrlsUnique(rows, retired, nextId, id, writeFails);
  }

  lemma CreateKeepsUrlsUnique(rows: map<nat, SocialMedia>, retired: set<string>, nextId: nat,
                              input: SocialMediaCreateInput, writeFails: bool)
    requires SocialMediasKeyed(rows, nextId) && SocialMediaUrlsUnique(rows) && LiveUrlsNotRetired(rows, retired)
    ensures var s := CreateSocialMedia(rows, retired, nextId, input, writeFails);
      SocialMediasKeyed(s.rows, s.nextId) && SocialMediaUrlsUnique(s.rows) && LiveUrlsNotRetired(s.rows, retired)
  {
    var s := CreateSocialMedia(rows, retired, nextId, input, writeFails);
    if s.result.Ok? {
      assert nextId !in rows;
      forall j, k | j in s.rows && k in s.rows && j != k
        ensures s.rows[j].socialMediaUrl != s.rows[k].socialMediaUrl
      {
        if j == nextId {
          assert !(k in rows && k != 0 && rows[k].socialMediaUrl == input.socialMediaUrl);
        } else if k == nextId {
          assert !(j in rows && j != 0 && rows[j].socialMediaUrl == input.socialMediaUrl);
        }
      }
    }
  }

  lemma UpdateKeepsUrlsUnique(rows: map<nat, SocialMedia>, retired: set<string>, nextId: nat,
                              input: SocialMediaUpdateInput, writeFails: bool)
    requires SocialMediasKeyed(rows, nextId) && SocialMediaUrlsUnique(rows) && LiveUrlsNotRetired(rows, retired)
    ensures var u := UpdateSocialMediaFrom(rows, retired, input, writeFails);
      SocialMediasKeyed(u.rows, nextId) && SocialMediaUrlsUnique(u.rows) && LiveUrlsNotRetired(u.rows, retired)
  {
    var u := UpdateSocialMediaFrom(rows, retired, input, writeFails);
    forall k | k in u.rows
      ensures u.rows[k].id == k && 0 < k < nextId && u.rows[k].socialMediaUrl !in retired
    {
      assert k in rows;
    }
    if u.result.Ok? && input.id in rows {
      forall j, k | j in u.rows && k in u.rows && j != k
        ensures u.rows[j].socialMediaUrl != u.rows[k].socialMediaUrl
      {
        if j == input.id {
          assert !(k in rows && k != input.id && rows[k].socialMediaUrl == input.socialMediaUrl);
        } else if k == input.id {
          assert !(j in rows && j != input.id && rows[j].socialMediaUrl == input.socialMediaUrl);
        } else {
          assert u.rows[j] == rows[j] && u.rows[k] == rows[k];
        }
      }
    }
  }

  lemma DeleteKeepsUrlsUnique(rows: map<nat, SocialMedia>, retired: set<string>, nextId: nat, id: int, writeFails: bool)
    requires SocialMediasKeyed(rows, nextId) && SocialMediaUrlsUnique(rows) && LiveUrlsNotRetired(rows, retired)
    requires MinInt64 <= id <= MaxInt64
    ensures var d := DeleteSocialMediaById(rows, retired, id, writeFails);
      SocialMediasKeyed(d.rows, nextId) && SocialMediaUrlsUnique(d.rows) && LiveUrlsNotRetired(d.rows, d.retired)
  {
    var d := DeleteSocialMediaById(rows, retired, id, writeFails);
    var k0 := UintOf(id);
    if d.result.Ok? && k0 in rows {
      forall k | k in d.rows
        ensures d.rows[k].socialMediaUrl !in d.retired
      {
        assert k != k0 && d.rows[k] == rows[k];
      }
    }
  }

  class SocialMediaSvc {
    const repo: SocialMediaRepo

    constructor (repo: SocialMediaRepo)
      ensures this.repo == repo
    {
      this.repo := repo;
    }

    method GetAll(readFails: bool) returns (r: Result<seq<Loaded<SocialMedia>>, DbError>)
      ensures r == FindAllSocialMedias(repo.db.socialMedias, repo.db.nextSocialMediaId, repo.db.users, readFails)
    {
      r := repo.FindAll(readFails);
    }

    method GetOneById(id: int, readFails: bool) returns (r: Result<Loaded<SocialMedia>, DbError>)
      ensures r == FindSocialMedia(repo.db.socialMedias, repo.db.users, id, readFails)
    {
      r := repo.FindById(id, readFails);
    }

    method Create(input: SocialMediaCreateInput, writeFails: bool) returns (r: Result<SocialMedia, DbError>)
      requires repo.db.Valid()
      modifies repo.db`socialMedias, repo.db`nextSocialMediaId
      ensures repo.db.Valid()
      ensures var s := CreateSocialMedia(old(repo.db.socialMedias), repo.db.retiredUrls, old(repo.db.nextSocialMediaId),
                                         input, writeFails);
        r == s.result && repo.db.socialMedias == s.rows && repo.db.nextSocialMediaId == s.nextId
    {
      r := repo.Save(SocialMedia(0, input.name, input.socialMediaUrl, input.userId), writeFails);
    }

    method Update(input: SocialMediaUpdateInput, writeFails: bool) returns (r: Result<SocialMedia, DbError>)
      requires repo.db.Valid()
      modifies repo.db`socialMedias
      ensures repo.db.Valid()
      ensures var w := UpdateSocialMediaFrom(old(repo.db.socialMedias), repo.db.retiredUrls, input, writeFails);
        r == w.result && repo.db.socialMedias == w.rows
    {
      r := repo.Update(SocialMedia(input.id, input.name, input.socialMediaUrl, input.userId), writeFails);
    }

    method Delete(id: int, writeFails: bool) returns (r: Option<DbError>)
      requires repo.db.Valid() && MinInt64 <= id <= MaxInt64
      modifies repo.db`socialMedias, repo.db`retiredUrls
      ensures repo.db.Valid()
      ensures var d := DeleteSocialMediaById(old(repo.db.socialMedias), old(repo.db.retiredUrls), id, writeFails);
        && (r.None? <==> d.result.Ok?) && (r.Some? ==> r.value == d.result.error)
        && repo.db.socialMedias == d.rows && repo.db.retiredUrls == d.retired
    {
      var res := repo.Delete(SocialMedia(UintOf(id), "", "", 0), writeFails);
      r := if res.Ok? then None else Some(res.error);
    }
  }
}
