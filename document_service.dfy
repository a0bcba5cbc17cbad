/**
 * The document service of a knowledge base: the paged document list and
 * its count, the in-memory filtering and paging of a document's chunks, and
 * renaming, enabling and deleting a document.  Every operation first checks
 * that the knowledge base belongs to the caller.
 */
module DocumentService {
  import opened Base
  import opened Text
  import opened Sorting
  import opened Store
  import opened Errors
  import opened JavaValues
  import opened ChatService
  import opened KnowledgeBaseService

  const DocumentNotFound := ResourceNotFound(Some("Document not found"))

  /** `verifyDocumentOwnership`: the document exists and its knowledge base
      belongs to the user; the document is returned. */
  function VerifyDocumentOwnership(db: Database, docId: int, userId: int): (r: Result<Document, Exception>)
    reads db
    ensures r.Ok? <==> db.FindDocument(docId).Some? && ValidateBaseAccess(db, db.FindDocument(docId).value.baseId, userId).None?
    ensures r.Ok? ==> r.value in db.documents && r.value.docId == docId
    ensures db.FindDocument(docId).None? ==> r == Err(DocumentNotFound)
  {
    var d := db.FindDocument(docId);
    if d.None? then Err(DocumentNotFound)
    else
      var check := ValidateBaseAccess(db, d.value.baseId, userId);
      if check.Some? then Err(check.value) else Ok(d.value)
  }

  /** `getDocumentInfo`: the name of a document whose knowledge base the
      caller owns. */
  function GetDocumentInfo(db: Database, docId: int, userId: int): (r: Result<string, Exception>)
    reads db
    ensures r.Ok? <==> VerifyDocumentOwnership(db, docId, userId).Ok?
    ensures r.Ok? ==> exists d :: d in db.documents && d.docId == docId && r.value == d.docName
    ensures r.Err? ==> r.error == VerifyDocumentOwnership(db, docId, userId).error
  {
    var owned := VerifyDocumentOwnership(db, docId, userId);
    if owned.Err? then Err(owned.error) else Ok(owned.value.docName)
  }

  // ---------------------------------------------------------------------
  // listDocuments and countDocuments
  // ---------------------------------------------------------------------

  function Abs(x: int): nat { if x < 0 then -x else x }

  /** Java's `int` division, which truncates toward zero. */
  function JavaDiv(a: int, b: int): (r: int)
    requires b != 0
    ensures a >= 0 && b > 0 ==> r == a / b
  {
    if (a >= 0) == (b > 0) then Abs(a) / Abs(b) else -(Abs(a) / Abs(b))
  }

  lemma {:induction false} MulSign(q: int, b: int)
    requires b > 0
    ensures q >= 1 ==> q * b >= b
    ensures q <= 0 ==> q * b <= 0
  {
    if q >= 1 {
      assert q * b == (q - 1) * b + b;
    }
  }

  lemma {:induction false} DivAtLeastOne(n: nat, b: int)
    requires b > 0
    ensures n / b >= 0
    ensures n / b >= 1 <==> n >= b
  {
    var q, m := n / b, n % b;
    assert n == q * b + m && 0 <= m < b;
    MulSign(q, b);
  }

  /** For a positive divisor the quotient is negative exactly when the
      dividend is at most minus the divisor. */
  lemma {:induction false} JavaDivNegative(a: int, b: int)
    requires b > 0
    ensures JavaDiv(a, b) < 0 <==> a <= -b
  {
    if a < 0 {
      DivAtLeastOne(-a, b);
      assert JavaDiv(a, b) == -((-a) / b);
    } else {
      DivAtLeastOne(a, b);
    }
  }

  /** Dafny's division rounds down instead: the two differ on -1 / 10. */
  lemma {:induction false} JavaDivTruncates()
    ensures JavaDiv(-1, 10) == 0 && -1 / 10 == -1
  {
  }

  /** `LOWER(docName) LIKE LOWER('%' + search + '%')` with the trimmed search,
      or every document of the base when the search is null or blank. */
  predicate NameMatches(d: Document, search: Option<string>)
  {
    search.None? || JavaTrim(search.value) == "" || ContainsIgnoreCase(d.docName, JavaTrim(search.value))
  }

  function Matching(baseId: int, search: Option<string>): Document -> bool
  {
    (d: Document) => d.baseId == baseId && NameMatches(d, search)
  }

  /** `Sort.by("createdAt").descending()`. */
  predicate CreatedAtDescending(d: Document, e: Document)
  {
    e.createdAt <= d.createdAt
  }

  lemma {:induction false} CreatedAtDescendingIsTotal()
    ensures TotalPreorder(CreatedAtDescending)
  {
  }

  /** A `Page`: the rows of one page, the number of all matching rows, the
      page index and the page size. */
  datatype Page = Page(content: seq<Document>, totalElements: nat, number: int, size: int)

  /** The rows `[start, start + size)` of `s`, or fewer at its end. */
  function Slice<T>(s: seq<T>, start: nat, size: nat): (r: seq<T>)
    ensures |r| <= size
    ensures start >= |s| ==> r == []
    ensures start < |s| ==> r == s[start..if start + size <= |s| then start + size else |s|]
  {
    if start >= |s| then [] else s[start..if start + size <= |s| then start + size else |s|]
  }

  /** A slice holds elements of the sequence, in their order. */
  lemma {:induction false} SliceWithin<T>(s: seq<T>, start: nat, size: nat, le: (T, T) -> bool)
    ensures forall x :: x in Slice(s, start, size) ==> x in s
    ensures SortedBy(s, le) ==> SortedBy(Slice(s, start, size), le)
  {
    var r := Slice(s, start, size);
    if start < |s| {
      forall i | 0 <= i < |r| ensures r[i] == s[start + i] {
      }
    }
  }

  /** Two consecutive slices make up the slice of both sizes. */
  lemma {:induction false} SliceConsecutive<T>(s: seq<T>, start: nat, a: nat, b: nat)
    ensures Slice(s, start, a) + Slice(s, start + a, b) == Slice(s, start, a + b)
  {
  }

  const DivideByZero := Exception.Other(Some("/ by zero"), None)
  const NegativePage := IllegalArgument(Some("Page index must not be less than zero"))
  const EmptyPage := IllegalArgument(Some("Page size must not be less than one"))

  /** `listDocuments`: ownership first, then page `offset / limit` of the
      matching documents, newest first. */
  function ListDocuments(db: Database, baseId: int, search: Option<string>, limit: int, offset: int, userId: int)
    : (r: Result<Page, Exception>)
    reads db
    ensures ValidateBaseAccess(db, baseId, userId).Some? ==> r == Err(ValidateBaseAccess(db, baseId, userId).value)
    ensures ValidateBaseAccess(db, baseId, userId).None? && limit == 0 ==> r == Err(DivideByZero)
    ensures r.Ok? <==> ValidateBaseAccess(db, baseId, userId).None? && limit >= 1 && offset > -limit
    ensures r.Ok? ==>
              && |r.value.content| <= limit
              && r.value.totalElements == |Filter(db.documents, Matching(baseId, search))|
              && SortedBy(r.value.content, CreatedAtDescending)
              && (forall d :: d in r.value.content ==> d in db.documents && d.baseId == baseId && NameMatches(d, search))
    ensures r.Ok? && offset >= 0 ==> r.value.number * limit <= offset < r.value.number * limit + limit
    ensures r.Ok? ==> r.value.number >= 0 && r.value.size == limit
    ensures r.Ok? ==>
              r.value.content == NewestFirstPage(Filter(db.documents, Matching(baseId, search)), r.value.number * limit, limit)
  {
    var check := ValidateBaseAccess(db, baseId, userId);
    if check.Some? then Err(check.value)
    else if limit == 0 then Err(DivideByZero)
    else
      var page := JavaDiv(offset, limit);
      assert limit >= 1 ==> (page < 0 <==> offset <= -limit) by {
        if limit >= 1 {
          JavaDivNegative(offset, limit);
        }
      }
      if page < 0 then Err(NegativePage)
      else if limit < 1 then Err(EmptyPage)
      else
        var matches := Filter(db.documents, Matching(baseId, search));
        var content := NewestFirstPage(matches, page * limit, limit);
        if offset >= 0 then
          PageCoversOffset(offset, limit);
          Ok(Page(content, |matches|, page, limit))
        else
          Ok(Page(content, |matches|, page, limit))
  }

  /** The rows `[start, start + size)` of the matches sorted newest first. */
  function NewestFirstPage(matches: seq<Document>, start: nat, size: nat): (r: seq<Document>)
    ensures |r| <= size
    ensures SortedBy(r, CreatedAtDescending)
    ensures forall d :: d in r ==> d in matches
    ensures r == Slice(SortBy(matches, CreatedAtDescending), start, size)
  {
    var ordered := SortBy(matches, CreatedAtDescending);
    CreatedAtDescendingIsTotal();
    SortBySorted(matches, CreatedAtDescending);
    var content := Slice(ordered, start, size);
    SliceWithin(ordered, start, size, CreatedAtDescending);
    assert forall d :: d in content ==> d in multiset(ordered);
    content
  }

  /** The page `offset / limit` is the one that holds row `offset`. */
  lemma {:induction false} PageCoversOffset(offset: nat, limit: int)
    requires limit >= 1
    ensures JavaDiv(offset, limit) * limit <= offset < JavaDiv(offset, limit) * limit + limit
  {
    var q := offset / limit;
    assert offset == q * limit + offset % limit;
  }

  /** `countDocuments`. */
  function CountDocuments(db: Database, baseId: int, search: Option<string>, userId: int): (r: Result<nat, Exception>)
    reads db
    ensures ValidateBaseAccess(db, baseId, userId).Some? ==> r == Err(ValidateBaseAccess(db, baseId, userId).value)
    ensures ValidateBaseAccess(db, baseId, userId).None? ==> r.Ok?
    ensures r.Ok? ==> r.value <= |db.documents|
    ensures r.Ok? ==> r.value == |Filter(db.documents, Matching(baseId, search))|
  {
    var check := ValidateBaseAccess(db, baseId, userId);
    if check.Some? then Err(check.value) else Ok(|Filter(db.documents, Matching(baseId, search))|)
  }

  /** The count is the `totalElements` of any page of the list, and with a
      blank search it is the number of documents of the base. */
  lemma {:induction false} CountAgreesWithList(db: Database, baseId: int, search: Option<string>, limit: int, offset: int, userId: int)
    ensures ListDocuments(db, baseId, search, limit, offset, userId).Ok? ==>
              CountDocuments(db, baseId, search, userId) == Ok(ListDocuments(db, baseId, search, limit, offset, userId).value.totalElements)
    ensures CountDocuments(db, baseId, search, userId).Ok? && (search.None? || JavaTrim(search.value) == "") ==>
              CountDocuments(db, baseId, search, userId).value == |db.DocumentsOf(baseId)|
  {
    if search.None? || JavaTrim(search.value) == "" {
      FilterSame(db.documents, Matching(baseId, search), (d: Document) => d.baseId == baseId);
    }
  }

  // ---------------------------------------------------------------------
  // getDocumentChunks
  // ---------------------------------------------------------------------

  /** `docIdMeta != null && docIdMeta.toString().equals(docId.toString())`.
      A map, a collection or an array prints as `{...}`, `[...]` or `[L...`,
      which is never a decimal number. */
  predicate MetaIsDocId(v: Value, docId: int)
  {
    match v
    case Str(s) => s == IntToString(docId)
    case Num(n) => IntToString(n) == IntToString(docId)
    case Bool(b) => (if b then "true" else "false") == IntToString(docId)
    case Obj(_, text) => text == IntToString(docId)
    case _ => false
  }

  /** The chunk's `docId` metadata names the document. */
  predicate OfDocument(c: Chunk, docId: int)
  {
    c.doc.metadata.Some? && Lookup(c.doc.metadata.value, "docId").Some?
    && MetaIsDocId(Lookup(c.doc.metadata.value, "docId").value, docId)
  }

  /** The content search: blank keeps every chunk, otherwise the lowercased
      content must contain the trimmed, lowercased term. */
  predicate ContentMatches(c: Chunk, search: Option<string>)
  {
    search.None? || JavaTrim(search.value) == "" || ContainsIgnoreCase(Content(c), JavaTrim(search.value))
  }

  /** The chunks of the document that match the search, in the order the
      vector store returned them. */
  function DocumentChunks(all: seq<Chunk>, docId: int, search: Option<string>): (r: seq<Chunk>)
    ensures forall c :: c in r <==> c in all && OfDocument(c, docId) && ContentMatches(c, search)
  {
    var own := Filter(all, (c: Chunk) => OfDocument(c, docId));
    if search.None? || JavaTrim(search.value) == "" then own
    else Filter(own, (c: Chunk) => ContentMatches(c, search))
  }

  function Min(a: int, b: int): int { if a <= b then a else b }

  /** `getDocumentChunks`, with `all` the chunks the similarity search
      returned: the matching chunks, then `subList(min(offset, n),
      min(offset + limit, n))`, which throws for a negative start and for a
      start past the end. */
  function GetDocumentChunks(db: Database, docId: int, search: Option<string>, limit: int, offset: int, userId: int,
                             all: seq<Chunk>): (r: Result<seq<Chunk>, Exception>)
    reads db
    ensures VerifyDocumentOwnership(db, docId, userId).Err? ==> r == Err(VerifyDocumentOwnership(db, docId, userId).error)
    ensures VerifyDocumentOwnership(db, docId, userId).Ok? && offset >= 0 && limit >= 0 ==> r.Ok?
    ensures VerifyDocumentOwnership(db, docId, userId).Ok? && offset < 0 ==> r.Err? && r.error.Other?
    ensures r.Ok? ==> offset >= 0
    ensures r.Ok? && limit >= 0 ==> |r.value| <= limit
    ensures r.Ok? && offset >= |DocumentChunks(all, docId, search)| ==> r.value == []
    ensures r.Ok? && offset < |DocumentChunks(all, docId, search)| && limit >= 0 ==>
              r.value == Slice(DocumentChunks(all, docId, search), offset, limit)
    ensures r.Ok? ==> forall c :: c in r.value ==> c in all && OfDocument(c, docId) && ContentMatches(c, search)
  {
    var owned := VerifyDocumentOwnership(db, docId, userId);
    if owned.Err? then Err(owned.error)
    else
      var chunks := DocumentChunks(all, docId, search);
      var start := Min(offset, |chunks|);
      var end := Min(offset + limit, |chunks|);
      if start < 0 then Err(Exception.Other(Some("fromIndex = " + IntToString(start)), None))
      else if start > end then
        Err(IllegalArgument(Some("fromIndex(" + IntToString(start) + ") > toIndex(" + IntToString(end) + ")")))
      else
        assert forall c :: c in chunks[start..end] ==> c in chunks;
        Ok(chunks[start..end])
  }

  // ---------------------------------------------------------------------
  // Changes to one document
  // ---------------------------------------------------------------------

  /** `changeDocumentStatus`: the owned document is saved with the new flag. */
  method ChangeDocumentStatus(db: Database, docId: int, isEnabled: bool, userId: int) returns (r: Result<(), Exception>)
    modifies db
    ensures r.Ok? <==> old(VerifyDocumentOwnership(db, docId, userId)).Ok?
    ensures r.Err? ==> r.error == old(VerifyDocumentOwnership(db, docId, userId)).error && unchanged(db)
    ensures r.Ok? ==>
              && db.documents == Upsert(old(db.documents), old(db.FindDocument(docId)).value.(isEnabled := isEnabled), DocumentKey)
              && db.conversations == old(db.conversations) && db.messages == old(db.messages)
              && db.bases == old(db.bases) && db.users == old(db.users)
    ensures old(db.Valid()) ==> db.Valid()
  {
    var owned := VerifyDocumentOwnership(db, docId, userId);
    if owned.Err? {
      return Err(owned.error);
    }
    db.SaveDocument(owned.value.(isEnabled := isEnabled));
    r := Ok(());
  }

  const EmptyName := IllegalArgument(Some("Document name cannot be empty"))

  /** `renameDocument`: a null or blank name is refused before any lookup;
      the owned document is saved with the trimmed name. */
  method RenameDocument(db: Database, docId: int, newName: Option<string>, userId: int) returns (r: Result<(), Exception>)
    modifies db
    ensures (newName.None? || JavaTrim(newName.value) == "") ==> r == Err(EmptyName)
    ensures r.Ok? <==> newName.Some? && JavaTrim(newName.value) != "" && old(VerifyDocumentOwnership(db, docId, userId)).Ok?
    ensures r.Err? ==> unchanged(db)
    ensures r.Ok? ==>
              && db.documents == Upsert(old(db.documents), old(db.FindDocument(docId)).value.(docName := JavaTrim(newName.value)), DocumentKey)
              && db.conversations == old(db.conversations) && db.messages == old(db.messages)
              && db.bases == old(db.bases) && db.users == old(db.users)
    ensures old(db.Valid()) ==> db.Valid()
  {
    if newName.None? || JavaTrim(newName.value) == "" {
      return Err(EmptyName);
    }
    var owned := VerifyDocumentOwnership(db, docId, userId);
    if owned.Err? {
      return Err(owned.error);
    }
    db.SaveDocument(owned.value.(docName := JavaTrim(newName.value)));
    r := Ok(());
  }

  /** The stored name after a successful rename has text and no surrounding
      blanks, and renaming with it again stores the same name. */
  lemma {:induction false} RenamedNameIsTrimmed(newName: string)
    requires JavaTrim(newName) != ""
    ensures HasText(JavaTrim(newName))
    ensures JavaTrim(JavaTrim(newName)) == JavaTrim(newName)
  {
    var t := JavaTrim(newName);
    BlankIffTrimEmpty(newName);
    HasTextIffNotBlank(newName);
    assert !IsJavaSpace(t[0]) && !IsJavaSpace(t[|t| - 1]);
    HasTextOfEdge(t);
    TrimIdentity(t, IsJavaSpace);
  }

  lemma {:induction false} HasTextOfEdge(t: string)
    requires |t| > 0 && !IsJavaSpace(t[0])
    ensures HasText(t)
  {
    HasTextIffNotBlank(t);
  }

  const ForeignDocument := IllegalArgument(Some("Document does not belong to the specified knowledge base"))

  /** `deleteDocument`: base ownership first, then the document must exist
      and sit in that base; only the document record is deleted (its chunks
      stay in the vector store). */
  method DeleteDocument(db: Database, baseId: int, docId: int, userId: int) returns (r: Result<(), Exception>)
    modifies db
    ensures old(ValidateBaseAccess(db, baseId, userId)).Some? ==> r == Err(old(ValidateBaseAccess(db, baseId, userId)).value)
    ensures old(ValidateBaseAccess(db, baseId, userId)).None? && old(db.FindDocument(docId)).None? ==> r == Err(DocumentNotFound)
    ensures (old(ValidateBaseAccess(db, baseId, userId)).None? && old(db.FindDocument(docId)).Some?
             && old(db.FindDocument(docId)).value.baseId != baseId) ==> r == Err(ForeignDocument)
    ensures r.Ok? <==> old(ValidateBaseAccess(db, baseId, userId)).None? && old(db.FindDocument(docId)).Some?
                       && old(db.FindDocument(docId)).value.baseId == baseId
    ensures r.Err? ==> unchanged(db)
    ensures r.Ok? ==>
              && db.documents == Filter(old(db.documents), (d: Document) => d.docId != docId)
              && db.conversations == old(db.conversations) && db.messages == old(db.messages)
              && db.bases == old(db.bases) && db.users == old(db.users)
    ensures old(db.Valid()) ==> db.Valid()
  {
    var check := ValidateBaseAccess(db, baseId, userId);
    if check.Some? {
      return Err(check.value);
    }
    var d := db.FindDocument(docId);
    if d.None? {
      return Err(DocumentNotFound);
    }
    if d.value.baseId != baseId {
      return Err(ForeignDocument);
    }
    db.DeleteDocument(d.value.docId);
    r := Ok(());
  }
}
