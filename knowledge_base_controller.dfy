/**
 * The knowledge-base endpoints: create, list, edit, search and delete.
 * Validation failures of the request come back as an error envelope; an
 * ownership failure is an exception that the global handler turns into a
 * response.
 */
module KnowledgeBaseController {
  import opened Base
  import opened Text
  import opened Sorting
  import opened Store
  import opened Errors
  import opened CommonResult
  import opened ChatController
  import opened ChatService
  import DocumentService

  /** `KnowledgeBaseDTO.from`: the fields the client sees. */
  datatype BaseDto = BaseDto(baseId: int, baseName: string, baseDesc: Option<string>)

  function DtoOf(kb: KnowledgeBase): BaseDto
  {
    BaseDto(kb.baseId, kb.baseName, kb.baseDesc)
  }

  /** The `{total, data}` payload of the list and search endpoints. */
  datatype Listing = Listing(total: nat, data: seq<BaseDto>)

  function ListingOf(bases: seq<KnowledgeBase>): (r: Listing)
    ensures r.total == |r.data| == |bases|
    ensures forall k :: 0 <= k < |bases| ==> r.data[k] == DtoOf(bases[k])
  {
    Listing(|bases|, Map(bases, DtoOf))
  }

  /** `verifyOwnership` after `findById`: the base, when it exists and
      belongs to the user. */
  function OwnedBase(db: Database, baseId: int, userId: int): (r: Result<KnowledgeBase, Exception>)
    reads db
    ensures r.Ok? <==> ValidateBaseAccess(db, baseId, userId).None?
    ensures r.Err? ==> r.error == ValidateBaseAccess(db, baseId, userId).value
    ensures r.Ok? ==> r.value in db.bases && r.value.baseId == baseId && r.value.userId == userId
  {
    var kb := db.FindBase(baseId);
    var check := ValidateBaseAccess(db, baseId, userId);
    if check.Some? then Err(check.value) else Ok(kb.value)
  }

  const NameRequired := "base_name is required"

  /** `createKnowledgeBase`: a null or blank name is answered with a 400
      envelope and nothing is saved; otherwise a base with the next
      generated id, the name as given and the description is saved. */
  method CreateKnowledgeBase(db: Database, authentication: Option<Principal>, baseName: Option<string>,
                             baseDesc: Option<string>, newId: int, now: int)
    returns (r: Result<ResultBody<BaseDto>, Exception>)
    requires forall b :: b in db.bases ==> b.baseId != newId
    modifies db
    ensures UserIdFromContext(authentication).Err? ==> r == Err(UserIdFromContext(authentication).error)
    ensures UserIdFromContext(authentication).Ok? && (baseName.None? || IsBlank(baseName.value)) ==>
              r == Ok(ErrorCode(400, Some(NameRequired)))
    ensures r.Err? || !r.value.IsSuccess() ==> unchanged(db)
    ensures r.Ok? && r.value.IsSuccess() ==>
              var kb := KnowledgeBase(newId, UserIdFromContext(authentication).value, baseName.value, baseDesc, None, now, now);
              && baseName.Some? && !IsBlank(baseName.value)
              && r.value == CommonResult.Success(Some(DtoOf(kb)))
              && db.bases == old(db.bases) + [kb]
              && db.conversations == old(db.conversations) && db.messages == old(db.messages)
              && db.documents == old(db.documents) && db.users == old(db.users)
    ensures UserIdFromContext(authentication).Ok? && baseName.Some? && !IsBlank(baseName.value) ==> r.Ok? && r.value.IsSuccess()
    ensures old(db.Valid()) ==> db.Valid()
  {
    var userId := UserIdFromContext(authentication);
    if userId.Err? {
      return Err(userId.error);
    }
    BlankIffTrimEmpty(baseName.GetOr(""));
    if baseName.None? || JavaTrim(baseName.value) == "" {
      return Ok(ErrorCode(400, Some(NameRequired)));
    }
    var kb := KnowledgeBase(newId, userId.value, baseName.value, baseDesc, None, now, now);
    UpsertFreshAppends(db.bases, kb, BaseKey);
    db.SaveBase(kb);
    r := Ok(CommonResult.Success(Some(DtoOf(kb))));
  }

  /** `listKnowledgeBases`: the user's bases in storage order. */
  function ListKnowledgeBases(db: Database, authentication: Option<Principal>): (r: Result<ResultBody<Listing>, Exception>)
    reads db
    ensures UserIdFromContext(authentication).Err? ==> r == Err(UserIdFromContext(authentication).error)
    ensures UserIdFromContext(authentication).Ok? ==>
              && r.Ok? && r.value.IsSuccess() && r.value.data.Some?
              && r.value.data.value.total == |r.value.data.value.data|
              && (forall d :: d in r.value.data.value.data <==>
                    exists b :: b in db.bases && b.userId == UserIdFromContext(authentication).value && d == DtoOf(b))
  {
    var userId := UserIdFromContext(authentication);
    if userId.Err? then Err(userId.error)
    else
      var mine := db.BasesOf(userId.value);
      var listing := ListingOf(mine);
      assert forall d :: d in listing.data <==> exists b :: b in mine && d == DtoOf(b) by {
        forall d | d in listing.data ensures exists b :: b in mine && d == DtoOf(b) {
          var k :| 0 <= k < |listing.data| && listing.data[k] == d;
          assert d == DtoOf(mine[k]);
        }
        forall d | exists b :: b in mine && d == DtoOf(b) ensures d in listing.data {
          var b :| b in mine && d == DtoOf(b);
          var k :| 0 <= k < |mine| && mine[k] == b;
          assert listing.data[k] == d;
        }
      }
      Ok(CommonResult.Success(Some(listing)))
  }

  /** `getKnowledgeBaseInfo`: the caller's own base, or the exception of
      the ownership check. */
  function GetKnowledgeBaseInfo(db: Database, authentication: Option<Principal>, baseId: int)
    : (r: Result<ResultBody<BaseDto>, Exception>)
    reads db
    ensures UserIdFromContext(authentication).Err? ==> r == Err(UserIdFromContext(authentication).error)
    ensures UserIdFromContext(authentication).Ok? ==>
              (r.Ok? <==> ValidateBaseAccess(db, baseId, UserIdFromContext(authentication).value).None?)
              && (r.Err? ==> r.error == ValidateBaseAccess(db, baseId, UserIdFromContext(authentication).value).value)
    ensures r.Ok? ==> r.value.IsSuccess() && r.value.data.Some?
                      && exists b :: b in db.bases && b.baseId == baseId
                                     && b.userId == UserIdFromContext(authentication).value && r.value.data.value == DtoOf(b)
  {
    var userId := UserIdFromContext(authentication);
    if userId.Err? then Err(userId.error)
    else
      var owned := OwnedBase(db, baseId, userId.value);
      if owned.Err? then Err(owned.error) else Ok(CommonResult.Success(Some(DtoOf(owned.value))))
  }

  /** The base after the edit's setters: a new name only when it has text,
      a new description whenever it is non-null (even empty). */
  function Edited(kb: KnowledgeBase, baseName: Option<string>, baseDesc: Option<string>): (r: KnowledgeBase)
    ensures r.baseId == kb.baseId && r.userId == kb.userId && r.basePath == kb.basePath
    ensures r.createdAt == kb.createdAt && r.updatedAt == kb.updatedAt
    ensures r.baseName == (if baseName.Some? && !IsBlank(baseName.value) then baseName.value else kb.baseName)
    ensures r.baseDesc == (if baseDesc.Some? then baseDesc else kb.baseDesc)
  {
    var named := if baseName.Some? && JavaTrim(baseName.value) != "" then kb.(baseName := baseName.value) else kb;
    BlankIffTrimEmpty(baseName.GetOr(""));
    if baseDesc.Some? then named.(baseDesc := baseDesc) else named
  }

  /** Sending the same edit twice changes nothing the second time. */
  lemma {:induction false} EditedIdempotent(kb: KnowledgeBase, baseName: Option<string>, baseDesc: Option<string>)
    ensures Edited(Edited(kb, baseName, baseDesc), baseName, baseDesc) == Edited(kb, baseName, baseDesc)
  {
  }

  /** An edit with neither a name with text nor a description changes nothing. */
  lemma {:induction false} EmptyEditKeepsBase(kb: KnowledgeBase, baseName: Option<string>)
    requires baseName.None? || IsBlank(baseName.value)
    ensures Edited(kb, baseName, None) == kb
  {
  }

  /** `editKnowledgeBase`: the owned base is saved with the edits; the
      update hook stamps `updatedAt` only when something changed. */
  method EditKnowledgeBase(db: Database, authentication: Option<Principal>, baseId: int,
                           baseName: Option<string>, baseDesc: Option<string>, now: int)
    returns (r: Result<ResultBody<BaseDto>, Exception>)
    modifies db
    ensures UserIdFromContext(authentication).Err? ==> r == Err(UserIdFromContext(authentication).error)
    ensures UserIdFromContext(authentication).Ok? ==>
              (r.Ok? <==> old(OwnedBase(db, baseId, UserIdFromContext(authentication).value)).Ok?)
    ensures r.Err? ==> unchanged(db)
    ensures r.Ok? ==>
              var kb := old(OwnedBase(db, baseId, UserIdFromContext(authentication).value)).value;
              var edited := Edited(kb, baseName, baseDesc);
              var saved := if edited == kb then kb else edited.(updatedAt := now);
              && r.value == CommonResult.Success(Some(DtoOf(saved)))
              && db.bases == Upsert(old(db.bases), saved, BaseKey)
              && db.conversations == old(db.conversations) && db.messages == old(db.messages)
              && db.documents == old(db.documents) && db.users == old(db.users)
    ensures old(db.Valid()) ==> db.Valid()
  {
    var userId := UserIdFromContext(authentication);
    if userId.Err? {
      return Err(userId.error);
    }
    var owned := OwnedBase(db, baseId, userId.value);
    if owned.Err? {
      return Err(owned.error);
    }
    var kb := owned.value;
    var edited := Edited(kb, baseName, baseDesc);
    var saved := if edited == kb then kb else edited.(updatedAt := now);
    db.SaveBase(saved);
    r := Ok(CommonResult.Success(Some(DtoOf(saved))));
  }

  /** `ORDER BY kb.updatedAt DESC`. */
  predicate UpdatedAtDescending(a: KnowledgeBase, b: KnowledgeBase)
  {
    b.updatedAt <= a.updatedAt
  }

  lemma {:induction false} UpdatedAtDescendingIsTotal()
    ensures TotalPreorder(UpdatedAtDescending)
  {
  }

  /** The search query: the user's bases whose lowercased name contains the
      lowercased term (the term is not trimmed), newest update first. */
  function SearchHits(bases: seq<KnowledgeBase>, userId: int, term: string): (r: seq<KnowledgeBase>)
    ensures forall b :: b in r <==> b in bases && b.userId == userId && ContainsIgnoreCase(b.baseName, term)
    ensures SortedBy(r, UpdatedAtDescending)
  {
    var hits := Filter(bases, (b: KnowledgeBase) => b.userId == userId && ContainsIgnoreCase(b.baseName, term));
    UpdatedAtDescendingIsTotal();
    SortBySorted(hits, UpdatedAtDescending);
    SortByMembers(hits, UpdatedAtDescending);
    SortBy(hits, UpdatedAtDescending)
  }

  /** `searchKnowledgeBases`: a null or blank term lists all of the user's
      bases; otherwise the case-insensitive substring search. */
  function SearchKnowledgeBases(db: Database, authentication: Option<Principal>, baseName: Option<string>)
    : (r: Result<ResultBody<Listing>, Exception>)
    reads db
    ensures UserIdFromContext(authentication).Err? ==> r == Err(UserIdFromContext(authentication).error)
    ensures UserIdFromContext(authentication).Ok? ==>
              r.Ok? && r.value.IsSuccess() && r.value.data.Some? && r.value.data.value.total == |r.value.data.value.data|
    ensures UserIdFromContext(authentication).Ok? && (baseName.None? || IsBlank(baseName.value)) ==>
              r == ListKnowledgeBases(db, authentication)
    ensures UserIdFromContext(authentication).Ok? && baseName.Some? && !IsBlank(baseName.value) ==>
              r.value.data == Some(ListingOf(SearchHits(db.bases, UserIdFromContext(authentication).value, baseName.value)))
  {
    var userId := UserIdFromContext(authentication);
    if userId.Err? then Err(userId.error)
    else
      BlankIffTrimEmpty(baseName.GetOr(""));
      if baseName.None? || JavaTrim(baseName.value) == "" then Ok(CommonResult.Success(Some(ListingOf(db.BasesOf(userId.value)))))
      else Ok(CommonResult.Success(Some(ListingOf(SearchHits(db.bases, userId.value, baseName.value)))))
  }

  /** A search finds exactly the user's bases whose name contains the term,
      ignoring ASCII case. */
  lemma {:induction false} SearchFindsMatches(db: Database, authentication: Option<Principal>, term: string, b: KnowledgeBase)
    requires UserIdFromContext(authentication).Ok? && !IsBlank(term)
    requires b in db.bases && b.userId == UserIdFromContext(authentication).value
    ensures DtoOf(b) in SearchKnowledgeBases(db, authentication, Some(term)).value.data.value.data
              <== ContainsIgnoreCase(b.baseName, term)
  {
    var hits := SearchHits(db.bases, UserIdFromContext(authentication).value, term);
    if ContainsIgnoreCase(b.baseName, term) {
      var k :| 0 <= k < |hits| && hits[k] == b;
      assert ListingOf(hits).data[k] == DtoOf(b);
    }
  }

  /** `deleteKnowledgeBase`: after the ownership check every document of the
      base is deleted, then the base. */
  method DeleteKnowledgeBase(db: Database, authentication: Option<Principal>, baseId: int)
    returns (r: Result<ResultBody<string>, Exception>)
    modifies db
    ensures UserIdFromContext(authentication).Err? ==> r == Err(UserIdFromContext(authentication).error)
    ensures UserIdFromContext(authentication).Ok? ==>
              (r.Ok? <==> old(OwnedBase(db, baseId, UserIdFromContext(authentication).value)).Ok?)
    ensures r.Err? ==> unchanged(db)
    ensures r.Ok? ==>
              && r.value == CommonResult.Success(Some("Knowledge base deleted successfully"))
              && db.documents == Filter(old(db.documents), (d: Document) => d.baseId != baseId)
              && db.bases == Filter(old(db.bases), (b: KnowledgeBase) => b.baseId != baseId)
              && db.conversations == old(db.conversations) && db.messages == old(db.messages) && db.users == old(db.users)
    ensures r.Ok? ==> (forall d :: d in db.documents ==> d.baseId != baseId) && (forall b :: b in db.bases ==> b.baseId != baseId)
    ensures old(db.Valid()) ==> db.Valid()
  {
    var userId := UserIdFromContext(authentication);
    if userId.Err? {
      return Err(userId.error);
    }
    var owned := OwnedBase(db, baseId, userId.value);
    if owned.Err? {
      return Err(owned.error);
    }
    db.DeleteDocumentsOf(baseId);
    db.DeleteBase(owned.value.baseId);
    r := Ok(CommonResult.Success(Some("Knowledge base deleted successfully")));
  }

  /** `e.getMessage()`, with a null message spelled as string
      concatenation spells it. */
  function MessageText(e: Exception): string
  {
    match e
    case ResourceNotFound(m) => if m.Some? then m.value else "null"
    case IllegalArgument(m) => if m.Some? then m.value else "null"
    case MaxUploadSizeExceeded => "Maximum upload size exceeded"
    case Other(m, _) => if m.Some? then m.value else "null"
  }

  /** `deleteDocument` of the knowledge-base endpoints: the document
      service's delete, with every exception it throws turned into a 500
      envelope that carries its message. */
  method DeleteDocument(db: Database, authentication: Option<Principal>, baseId: int, docId: int)
    returns (r: Result<ResultBody<string>, Exception>)
    modifies db
    ensures UserIdFromContext(authentication).Err? ==> r == Err(UserIdFromContext(authentication).error) && unchanged(db)
    ensures UserIdFromContext(authentication).Ok? ==>
              var userId := UserIdFromContext(authentication).value;
              var deletes := old(ValidateBaseAccess(db, baseId, userId)).None? && old(db.FindDocument(docId)).Some?
                             && old(db.FindDocument(docId)).value.baseId == baseId;
              && r.Ok?
              && (r.value.IsSuccess() <==> deletes)
              && (deletes ==> r.value == CommonResult.Success(Some("Document deleted successfully"))
                              && db.documents == Filter(old(db.documents), (d: Document) => d.docId != docId))
              && (!deletes ==> unchanged(db) && r.value.code == 500 && r.value.msg.Some?
                               && "Failed to delete document: " <= r.value.msg.value)
    ensures db.conversations == old(db.conversations) && db.messages == old(db.messages)
    ensures db.bases == old(db.bases) && db.users == old(db.users)
    ensures old(db.Valid()) ==> db.Valid()
  {
    var userId := UserIdFromContext(authentication);
    if userId.Err? {
      return Err(userId.error);
    }
    var deleted := DocumentService.DeleteDocument(db, baseId, docId, userId.value);
    if deleted.Err? {
      return Ok(CommonResult.Error(Some("Failed to delete document: " + MessageText(deleted.error))));
    }
    r := Ok(CommonResult.Success(Some("Document deleted successfully")));
  }
}
