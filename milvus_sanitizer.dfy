/**
 * The sanitiser that prepares chunk documents for the Milvus vector store
 * (MilvusDocumentSanitizer): it drops unusable documents, replaces missing
 * ids, trims every string, removes null keys and null values at any depth of
 * the metadata, and injects the ingestion metadata.  Every decision it takes
 * is reported as a warning.  Map entries are visited in their stored
 * order, where Java's `HashMap` follows its own hash order.
 */
module MilvusSanitizer {
  import opened Base
  import opened Text
  import opened Store
  import opened JavaValues

  /** The warnings `sanitize` reports; `Message` gives their text. */
  datatype Warning =
    | EmptySource
    | NullDocument(doc: nat)
    | FallbackIdUsed(doc: nat, id: string)
    | BlankContent(doc: nat)
    | DroppedKey(path: Path, keyIndex: nat)
    | NullValue(path: Path)
    | DroppedNestedKey(path: Path)
    | ConvertedObject(path: Path, typeName: string)

  function Message(w: Warning): string
  {
    match w
    case EmptySource => "source document list is null/empty"
    case NullDocument(i) => "doc[" + NatToString(i) + "] is null and skipped"
    case FallbackIdUsed(i, id) => "doc[" + NatToString(i) + "].id is null/blank, generated fallback id=" + id
    case BlankContent(i) => "doc[" + NatToString(i) + "].content is null/blank and skipped"
    case DroppedKey(p, k) => PathText(p) + " key[" + NatToString(k) + "] is null/blank and dropped"
    case NullValue(p) => PathText(p) + " is null, replaced with empty string"
    case DroppedNestedKey(p) => PathText(p) + " has null/blank nested key, dropped"
    case ConvertedObject(p, t) => PathText(p) + " type=" + t + " converted to string"
  }

  /** A sanitised value with the warnings produced on the way. */
  datatype Sanitized<T> = Sanitized(value: T, warnings: seq<Warning>)

  /** `SanitizeResult(documents, warnings)`. */
  datatype SanitizeResult = SanitizeResult(documents: seq<AiDocument>, warnings: seq<Warning>)

  /** The per-upload arguments of `sanitize`. */
  datatype Batch = Batch(docId: int, baseId: int, fileName: Option<string>, isEnabled: Option<bool>, baseTimestamp: int)

  /** `normalizeString`: the trimmed value, or the default for null and blank input. */
  function NormalizeString(value: Option<string>, default: Option<string>): (r: Option<string>)
    ensures value.None? || IsBlank(value.value) ==> r == default
    ensures value.Some? && !IsBlank(value.value) ==> r == Some(JavaTrim(value.value)) && NormalKey(r)
  {
    if value.None? then default
    else
      var t := JavaTrim(value.value);
      TrimmedKey(value.value);
      if t == "" then default else Some(t)
  }

  /** A string is blank exactly when it trims to nothing, and otherwise its
      trimmed form is a normal key. */
  lemma {:induction false} TrimmedKey(s: string)
    ensures IsBlank(s) <==> JavaTrim(s) == ""
    ensures !IsBlank(s) ==> NormalKey(Some(JavaTrim(s)))
  {
    BlankIffTrimEmpty(s);
  }

  /** Normalising a normalised string changes nothing. */
  lemma {:induction false} NormalizeStringIdempotent(value: Option<string>, default: Option<string>)
    requires NormalizeString(value, default) != default
    ensures NormalizeString(NormalizeString(value, default), default) == NormalizeString(value, default)
  {
    var t := JavaTrim(value.value);
    TrimIdentity(t, IsJavaSpace);
  }

  /** Keys trimmed, non-empty and unique; values free of null at any depth. */
  ghost predicate SafeEntries(es: seq<Entry>)
  {
    KeysUnique(es, EntryKey) && forall e :: e in es ==> NormalKey(e.key) && NullFree(e.value)
  }

  lemma {:induction false} NormalKeyNotBlank(s: string)
    requires NormalKey(Some(s))
    ensures !IsBlank(s) && HasText(s)
  {
    HasTextIffNotBlank(s);
  }

  lemma {:induction false} PutSafe(es: seq<Entry>, k: string, v: Value)
    requires SafeEntries(es) && NormalKey(Some(k)) && NullFree(v)
    ensures SafeEntries(Put(es, k, v))
  {
    UpsertKeepsKeysUnique(es, Entry(Some(k), v), EntryKey);
  }

  lemma {:induction false} SafeEntriesNullFree(es: seq<Entry>)
    requires SafeEntries(es)
    ensures NullFree(MapV(es))
  {
    assert forall i :: 0 <= i < |es| ==> es[i] in es;
  }

  /** `sanitizeValue`: null becomes "" with a warning, strings are trimmed,
      numbers and booleans are kept, maps, collections and arrays are
      sanitised element by element, and any other object becomes its
      trimmed text with a warning. */
  function SanitizeValue(v: Value, path: Path): (r: Sanitized<Value>)
    ensures NullFree(r.value)
    ensures v.Null? ==> r == Sanitized(Str(""), [NullValue(path)])
    ensures v.Str? ==> r == Sanitized(Str(JavaTrim(v.s)), [])
    ensures v.Num? || v.Bool? ==> r == Sanitized(v, [])
    ensures v.ListV? || v.ArrayV? ==> r.value.ListV? && |r.value.items| == |v.items|
    ensures v.MapV? ==> r.value.MapV? && SafeEntries(r.value.entries)
    ensures v.Obj? ==> r == Sanitized(Str(JavaTrim(v.text)), [ConvertedObject(path, v.typeName)])
    decreases Size(v), 1
  {
    match v
    case Null => Sanitized(Str(""), [NullValue(path)])
    case Str(s) => Sanitized(Str(NormalizeString(Some(s), Some("")).value), [])
    case Num(_) => Sanitized(v, [])
    case Bool(_) => Sanitized(v, [])
    case MapV(es) =>
      var casted := CastKeys(es, path, []);
      var m := SanitizeMap(casted.value, path, 0, []);
      SafeEntriesNullFree(m.value);
      Sanitized(MapV(m.value), casted.warnings + m.warnings)
    case ListV(items) =>
      var l := SanitizeItems(items, path, 0);
      Sanitized(ListV(l.value), l.warnings)
    case ArrayV(items) =>
      var l := SanitizeItems(items, path, 0);
      Sanitized(ListV(l.value), l.warnings)
    case Obj(typeName, text) =>
      Sanitized(Str(NormalizeString(Some(text), Some("")).value), [ConvertedObject(path, typeName)])
  }

  /** The first pass over a nested map: keys are normalised, null and blank
      keys are dropped with a warning, and a later duplicate key replaces an
      earlier one. */
  function CastKeys(es: seq<Entry>, path: Path, casted: seq<Entry>): (r: Sanitized<seq<Entry>>)
    ensures EntriesSize(r.value) <= EntriesSize(casted) + EntriesSize(es)
    ensures |r.warnings| <= |es|
  {
    if |es| == 0 then Sanitized(casted, [])
    else
      var key := NormalizeString(es[0].key, None);
      if key.None? then
        var rest := CastKeys(es[1..], path, casted);
        Sanitized(rest.value, [DroppedNestedKey(path)] + rest.warnings)
      else
        PutSize(casted, key.value, es[0].value);
        CastKeys(es[1..], path, Put(casted, key.value, es[0].value))
  }

  /** `sanitizeMap`: the entries from `keyIndex` on, put into `safe`. */
  function SanitizeMap(es: seq<Entry>, path: Path, keyIndex: nat, safe: seq<Entry>): (r: Sanitized<seq<Entry>>)
    requires SafeEntries(safe)
    ensures SafeEntries(r.value)
    decreases EntriesSize(es), 0
  {
    if |es| == 0 then Sanitized(safe, [])
    else
      var key := NormalizeString(es[0].key, None);
      if key.None? then
        var rest := SanitizeMap(es[1..], path, keyIndex + 1, safe);
        Sanitized(rest.value, [DroppedKey(path, keyIndex)] + rest.warnings)
      else
        var v := SanitizeValue(es[0].value, Field(path, key.value));
        PutSafe(safe, key.value, v.value);
        var rest := SanitizeMap(es[1..], path, keyIndex + 1, Put(safe, key.value, v.value));
        Sanitized(rest.value, v.warnings + rest.warnings)
  }

  /** `sanitizeCollection` and `sanitizeArray`: element `idx + k` is
      sanitised under the path `path[idx + k]`. */
  function SanitizeItems(vs: seq<Value>, path: Path, idx: nat): (r: Sanitized<seq<Value>>)
    ensures |r.value| == |vs|
    ensures forall i :: 0 <= i < |r.value| ==> NullFree(r.value[i])
    decreases ItemsSize(vs), 0
  {
    if |vs| == 0 then Sanitized([], [])
    else
      var x := SanitizeValue(vs[0], Item(path, idx));
      var rest := SanitizeItems(vs[1..], path, idx + 1);
      Sanitized([x.value] + rest.value, x.warnings + rest.warnings)
  }

  /** A document the vector store accepts: non-blank id and content, and
      metadata with no null anywhere. */
  predicate MilvusSafe(d: AiDocument)
  {
    d.id.Some? && HasText(d.id.value) && d.text.Some? && HasText(d.text.value)
    && d.metadata.Some? && NullFree(MapV(d.metadata.value))
  }

  /** The id given to a document without one. */
  function FallbackId(b: Batch, i: nat): (r: string)
    ensures !IsBlank(r) && HasText(r)
  {
    var r := IntToString(b.docId) + "_" + NatToString(i) + "_" + IntToString(b.baseTimestamp + i) + "_retry";
    assert !IsJavaSpace(r[|r| - 1]);
    HasTextIffNotBlank(r);
    r
  }

  /** Decimal numbers contain no character that trimming removes. */
  lemma {:induction false} IntToStringTrimmed(n: int)
    ensures NormalizeString(Some(IntToString(n)), Some("")) == Some(IntToString(n))
  {
    var s := IntToString(n);
    var d := NatToString(if n >= 0 then n else -n);
    assert !IsJavaSpace(d[|d| - 1]);
    assert s[|s| - 1] == d[|d| - 1];
    assert !IsJavaSpace(s[0]);
    TrimIdentity(s, IsJavaSpace);
  }

  /** The value written under each injected metadata key, if `k` is one. */
  function InjectedValue(b: Batch, safeIndex: nat, k: string): (r: Option<Value>)
  {
    if k == "docId" then Some(Str(NormalizeString(Some(IntToString(b.docId)), Some("")).value))
    else if k == "baseId" then Some(Str(NormalizeString(Some(IntToString(b.baseId)), Some("")).value))
    else if k == "fileName" then Some(Str(NormalizeString(b.fileName, Some("unnamed-file")).value))
    else if k == "chunkIndex" then Some(Str(NatToString(safeIndex)))
    else if k == "isEnabled" then Some(Str(if b.isEnabled == Some(true) then "true" else "false"))
    else None
  }

  /** The five metadata entries written over the sanitised source metadata, in order. */
  function InjectMetadata(meta: seq<Entry>, b: Batch, safeIndex: nat): seq<Entry>
  {
    var m1 := Put(meta, "docId", InjectedValue(b, safeIndex, "docId").value);
    var m2 := Put(m1, "baseId", InjectedValue(b, safeIndex, "baseId").value);
    var m3 := Put(m2, "fileName", InjectedValue(b, safeIndex, "fileName").value);
    var m4 := Put(m3, "chunkIndex", InjectedValue(b, safeIndex, "chunkIndex").value);
    Put(m4, "isEnabled", InjectedValue(b, safeIndex, "isEnabled").value)
  }

  lemma {:induction false} InjectedKeysNormal()
    ensures NormalKey(Some("docId")) && NormalKey(Some("baseId")) && NormalKey(Some("fileName"))
    ensures NormalKey(Some("chunkIndex")) && NormalKey(Some("isEnabled"))
  {
  }

  /** Injection keeps the metadata safe. */
  lemma {:induction false} InjectSafe(meta: seq<Entry>, b: Batch, safeIndex: nat)
    requires SafeEntries(meta)
    ensures SafeEntries(InjectMetadata(meta, b, safeIndex))
  {
    InjectedKeysNormal();
    var m1 := Put(meta, "docId", InjectedValue(b, safeIndex, "docId").value);
    var m2 := Put(m1, "baseId", InjectedValue(b, safeIndex, "baseId").value);
    var m3 := Put(m2, "fileName", InjectedValue(b, safeIndex, "fileName").value);
    var m4 := Put(m3, "chunkIndex", InjectedValue(b, safeIndex, "chunkIndex").value);
    PutSafe(meta, "docId", InjectedValue(b, safeIndex, "docId").value);
    PutSafe(m1, "baseId", InjectedValue(b, safeIndex, "baseId").value);
    PutSafe(m2, "fileName", InjectedValue(b, safeIndex, "fileName").value);
    PutSafe(m3, "chunkIndex", InjectedValue(b, safeIndex, "chunkIndex").value);
    PutSafe(m4, "isEnabled", InjectedValue(b, safeIndex, "isEnabled").value);
  }

  /** Reading key `k` back from the injected metadata. */
  lemma {:induction false} LookupInjected(meta: seq<Entry>, b: Batch, safeIndex: nat, k: string)
    ensures Lookup(InjectMetadata(meta, b, safeIndex), k)
            == if InjectedValue(b, safeIndex, k).Some? then InjectedValue(b, safeIndex, k) else Lookup(meta, k)
  {
    var m1 := Put(meta, "docId", InjectedValue(b, safeIndex, "docId").value);
    var m2 := Put(m1, "baseId", InjectedValue(b, safeIndex, "baseId").value);
    var m3 := Put(m2, "fileName", InjectedValue(b, safeIndex, "fileName").value);
    var m4 := Put(m3, "chunkIndex", InjectedValue(b, safeIndex, "chunkIndex").value);
    LookupPut(meta, "docId", InjectedValue(b, safeIndex, "docId").value, k);
    LookupPut(m1, "baseId", InjectedValue(b, safeIndex, "baseId").value, k);
    LookupPut(m2, "fileName", InjectedValue(b, safeIndex, "fileName").value, k);
    LookupPut(m3, "chunkIndex", InjectedValue(b, safeIndex, "chunkIndex").value, k);
    LookupPut(m4, "isEnabled", InjectedValue(b, safeIndex, "isEnabled").value, k);
  }

  /** The injected keys override whatever the source metadata held under
      them: ids as decimal strings, the file name or "unnamed-file", the
      running chunk index, and "true" exactly when the flag is TRUE. Every
      other key keeps its sanitised value. */
  lemma {:induction false} InjectedMetadata(meta: seq<Entry>, b: Batch, safeIndex: nat, k: string)
    ensures Lookup(InjectMetadata(meta, b, safeIndex), "docId") == Some(Str(IntToString(b.docId)))
    ensures Lookup(InjectMetadata(meta, b, safeIndex), "baseId") == Some(Str(IntToString(b.baseId)))
    ensures Lookup(InjectMetadata(meta, b, safeIndex), "fileName")
            == Some(Str(if b.fileName.None? || IsBlank(b.fileName.value) then "unnamed-file" else JavaTrim(b.fileName.value)))
    ensures Lookup(InjectMetadata(meta, b, safeIndex), "chunkIndex") == Some(Str(NatToString(safeIndex)))
    ensures Lookup(InjectMetadata(meta, b, safeIndex), "isEnabled") == Some(Str(if b.isEnabled == Some(true) then "true" else "false"))
    ensures InjectedValue(b, safeIndex, k).None? ==> Lookup(InjectMetadata(meta, b, safeIndex), k) == Lookup(meta, k)
  {
    IntToStringTrimmed(b.docId);
    IntToStringTrimmed(b.baseId);
    LookupInjected(meta, b, safeIndex, "docId");
    LookupInjected(meta, b, safeIndex, "baseId");
    LookupInjected(meta, b, safeIndex, "fileName");
    LookupInjected(meta, b, safeIndex, "chunkIndex");
    LookupInjected(meta, b, safeIndex, "isEnabled");
    LookupInjected(meta, b, safeIndex, k);
  }

  /** One iteration of the loop of `sanitize`: document `i` of the source,
      with `safeIndex` documents emitted so far. */
  function SanitizeDoc(doc: Option<AiDocument>, i: nat, safeIndex: nat, b: Batch): (r: Sanitized<Option<AiDocument>>)
    ensures r.value.Some? <==> Survives(doc)
    ensures doc.None? ==> r.warnings == [NullDocument(i)]
  {
    SurvivesIff(doc);
    if doc.None? then Sanitized(None, [NullDocument(i)])
    else
      var d := doc.value;
      var id := NormalizeString(d.id, None);
      var safeId := if id.Some? then id.value else FallbackId(b, i);
      var idWarnings := if id.Some? then [] else [FallbackIdUsed(i, safeId)];
      var content := NormalizeString(d.text, None);
      if content.None? then
        Sanitized(None, idWarnings + [BlankContent(i)])
      else
        var meta := SanitizeMap(d.metadata.GetOr([]), DocMetadata(i), 0, []);
        Sanitized(Some(AiDocument(Some(safeId), content, Some(InjectMetadata(meta.value, b, safeIndex)))), idWarnings + meta.warnings)
  }

  /** A kept document is safe for the vector store: its content is the
      trimmed source content, its id the trimmed source id or the fallback
      id, and its chunk index the number of documents emitted before it. */
  lemma {:induction false} SanitizeDocKept(doc: Option<AiDocument>, i: nat, safeIndex: nat, b: Batch)
    requires Survives(doc)
    ensures var d := SanitizeDoc(doc, i, safeIndex, b).value.value;
      MilvusSafe(d)
      && d.text == Some(JavaTrim(doc.value.text.value))
      && d.id == Some(if doc.value.id.Some? && !IsBlank(doc.value.id.value) then JavaTrim(doc.value.id.value) else FallbackId(b, i))
      && Lookup(d.metadata.value, "chunkIndex") == Some(Str(NatToString(safeIndex)))
  {
    SurvivesIff(doc);
    var id := NormalizeString(doc.value.id, None);
    var content := NormalizeString(doc.value.text, None);
    var meta := SanitizeMap(doc.value.metadata.GetOr([]), DocMetadata(i), 0, []);
    InjectSafe(meta.value, b, safeIndex);
    SafeEntriesNullFree(InjectMetadata(meta.value, b, safeIndex));
    LookupInjected(meta.value, b, safeIndex, "chunkIndex");
    NormalKeyNotBlank(content.value);
    if id.Some? {
      NormalKeyNotBlank(id.value);
    }
  }

  /** A source document that `sanitize` keeps: present, with non-blank content. */
  predicate Survives(d: Option<AiDocument>)
  {
    d.Some? && d.value.text.Some? && HasText(d.value.text.value)
  }

  lemma {:induction false} SurvivesIff(d: Option<AiDocument>)
    ensures Survives(d) <==> d.Some? && d.value.text.Some? && !IsBlank(d.value.text.value)
  {
    if d.Some? && d.value.text.Some? {
      HasTextIffNotBlank(d.value.text.value);
    }
  }

  /** The trimmed contents of the source documents (below `n`) that
      survive, in source order. */
  function SurvivingTexts(src: seq<Option<AiDocument>>, n: nat): (r: seq<Option<string>>)
    requires n <= |src|
    ensures |r| <= n
  {
    if n == 0 then []
    else if Survives(src[n - 1]) then SurvivingTexts(src, n - 1) + [Some(JavaTrim(src[n - 1].value.text.value))]
    else SurvivingTexts(src, n - 1)
  }

  /** Every source document survives the sanitiser when all of them do. */
  lemma {:induction false} SurvivingTextsAll(src: seq<Option<AiDocument>>, n: nat)
    requires n <= |src|
    requires forall i :: 0 <= i < n ==> Survives(src[i])
    ensures |SurvivingTexts(src, n)| == n
  {
    if n > 0 {
      SurvivingTextsAll(src, n - 1);
    }
  }

  /** The contents of a list of documents, in order. */
  function Texts(docs: seq<AiDocument>): (r: seq<Option<string>>)
    ensures |r| == |docs|
  {
    if |docs| == 0 then [] else Texts(docs[..|docs| - 1]) + [docs[|docs| - 1].text]
  }

  /** What the loop of `sanitize` has produced after the first `n` source documents. */
  function SanitizePrefix(src: seq<Option<AiDocument>>, n: nat, b: Batch): (r: SanitizeResult)
    requires n <= |src|
    ensures |r.documents| == |SurvivingTexts(src, n)| <= n
    decreases n, 1
  {
    if n == 0 then SanitizeResult([], [])
    else
      var prev := SanitizePrefix(src, n - 1, b);
      var step := Step(src, n, b);
      if step.value.Some? then
        SanitizeResult(prev.documents + [step.value.value], prev.warnings + step.warnings)
      else
        SanitizeResult(prev.documents, prev.warnings + step.warnings)
  }

  /** Iteration `n - 1` of the loop: source document `n - 1`, with the
      documents emitted by the iterations before it. */
  function Step(src: seq<Option<AiDocument>>, n: nat, b: Batch): (r: Sanitized<Option<AiDocument>>)
    requires 0 < n <= |src|
    ensures r.value.Some? <==> Survives(src[n - 1])
    decreases n, 0
  {
    SanitizeDoc(src[n - 1], n - 1, |SanitizePrefix(src, n - 1, b).documents|, b)
  }

  /** `d` is safe for the vector store and is the `k`-th document emitted. */
  predicate Emitted(d: AiDocument, k: nat)
  {
    MilvusSafe(d) && Lookup(d.metadata.value, "chunkIndex") == Some(Str(NatToString(k)))
  }

  /** Every document of `docs` is emitted at its own position, stated from
      the last document backwards. */
  predicate EmittedAll(docs: seq<AiDocument>)
  {
    |docs| > 0 ==> Emitted(docs[|docs| - 1], |docs| - 1) && EmittedAll(docs[..|docs| - 1])
  }

  lemma {:induction false} EmittedAllIndex(docs: seq<AiDocument>)
    requires EmittedAll(docs)
    ensures forall k :: 0 <= k < |docs| ==> Emitted(docs[k], k)
  {
    if |docs| > 0 {
      var k := |docs| - 1;
      EmittedAllIndex(docs[..k]);
      forall j | 0 <= j < k
        ensures Emitted(docs[j], j)
      {
        assert docs[..k][j] == docs[j];
      }
    }
  }

  /** The document iteration `n - 1` appends is the `k`-th emitted one. */
  lemma {:induction false} StepEmitted(src: seq<Option<AiDocument>>, n: nat, b: Batch)
    requires 0 < n <= |src| && Survives(src[n - 1])
    ensures var prev := SanitizePrefix(src, n - 1, b).documents;
      SanitizePrefix(src, n, b).documents == prev + [Step(src, n, b).value.value]
      && Emitted(Step(src, n, b).value.value, |prev|)
      && Step(src, n, b).value.value.text == Some(JavaTrim(src[n - 1].value.text.value))
  {
    var k := |SanitizePrefix(src, n - 1, b).documents|;
    assert Step(src, n, b) == SanitizeDoc(src[n - 1], n - 1, k, b);
    SanitizeDocKept(src[n - 1], n - 1, k, b);
  }

  /** Appending the next emitted document keeps every document emitted at
      its position and adds its text at the end. */
  lemma {:induction false} EmittedSnoc(prev: seq<AiDocument>, d: AiDocument)
    requires EmittedAll(prev) && Emitted(d, |prev|)
    ensures EmittedAll(prev + [d])
    ensures Texts(prev + [d]) == Texts(prev) + [d.text]
  {
    var docs := prev + [d];
    assert docs[..|prev|] == prev;
    assert docs[|prev|] == d;
  }

  lemma {:induction false} SanitizePrefixEmitsAll(src: seq<Option<AiDocument>>, n: nat, b: Batch)
    requires n <= |src|
    ensures EmittedAll(SanitizePrefix(src, n, b).documents)
    ensures Texts(SanitizePrefix(src, n, b).documents) == SurvivingTexts(src, n)
  {
    if n > 0 {
      SanitizePrefixEmitsAll(src, n - 1, b);
      StepKeepsEmitted(src, n, b);
    }
  }

  /** One more iteration keeps every emitted document at its position and
      the emitted texts equal to the surviving ones. */
  lemma {:induction false} StepKeepsEmitted(src: seq<Option<AiDocument>>, n: nat, b: Batch)
    requires 0 < n <= |src|
    requires EmittedAll(SanitizePrefix(src, n - 1, b).documents)
    requires Texts(SanitizePrefix(src, n - 1, b).documents) == SurvivingTexts(src, n - 1)
    ensures EmittedAll(SanitizePrefix(src, n, b).documents)
    ensures Texts(SanitizePrefix(src, n, b).documents) == SurvivingTexts(src, n)
  {
    if Survives(src[n - 1]) {
      StepEmitted(src, n, b);
      EmittedSnoc(SanitizePrefix(src, n - 1, b).documents, Step(src, n, b).value.value);
    } else {
      StepSkipped(src, n, b);
    }
  }

  /** A document that does not survive adds nothing. */
  lemma {:induction false} StepSkipped(src: seq<Option<AiDocument>>, n: nat, b: Batch)
    requires 0 < n <= |src| && !Survives(src[n - 1])
    ensures SanitizePrefix(src, n, b).documents == SanitizePrefix(src, n - 1, b).documents
    ensures SurvivingTexts(src, n) == SurvivingTexts(src, n - 1)
  {
    assert Step(src, n, b).value.None?;
  }

  /** Every emitted document is safe for the vector store and carries its
      position as chunk index (0, 1, 2, ... without gaps), and the emitted
      contents are the trimmed contents of the surviving source documents,
      in source order. */
  lemma {:induction false} SanitizePrefixEmits(src: seq<Option<AiDocument>>, n: nat, b: Batch)
    requires n <= |src|
    ensures var r := SanitizePrefix(src, n, b);
      (forall k :: 0 <= k < |r.documents| ==> Emitted(r.documents[k], k))
      && Texts(r.documents) == SurvivingTexts(src, n)
  {
    SanitizePrefixEmitsAll(src, n, b);
    EmittedAllIndex(SanitizePrefix(src, n, b).documents);
  }

  /** `sanitize`. */
  method Sanitize(sourceDocs: Option<seq<Option<AiDocument>>>, b: Batch) returns (r: SanitizeResult)
    ensures sourceDocs.None? || |sourceDocs.value| == 0 ==> r == SanitizeResult([], [EmptySource])
    ensures sourceDocs.Some? && |sourceDocs.value| > 0 ==> r == SanitizePrefix(sourceDocs.value, |sourceDocs.value|, b)
  {
    if sourceDocs.None? || |sourceDocs.value| == 0 {
      return SanitizeResult([], [EmptySource]);
    }
    var src := sourceDocs.value;
    var docs: seq<AiDocument> := [];
    var warnings: seq<Warning> := [];
    var safeIndex := 0;
    for i := 0 to |src|
      invariant SanitizeResult(docs, warnings) == SanitizePrefix(src, i, b)
      invariant safeIndex == |docs|
    {
      var step := SanitizeDoc(src[i], i, safeIndex, b);
      assert step == Step(src, i + 1, b);
      warnings := warnings + step.warnings;
      if step.value.Some? {
        docs := docs + [step.value.value];
        safeIndex := safeIndex + 1;
      }
    }
    r := SanitizeResult(docs, warnings);
  }
}
