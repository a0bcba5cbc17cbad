/**
 * The ingestion path of the knowledge base (KnowledgeBaseService): an
 * uploaded file is registered as a document, its parsed chunks get ids and
 * metadata, the Milvus sanitiser cleans them, the payload is validated, and
 * the document row ends as Success with its chunk count or as Failure.
 * Parsing, splitting and the vector store are foreign: their results are
 * inputs here.
 */
module KnowledgeBaseService {
  import opened Base
  import opened Text
  import opened Store
  import opened JavaValues
  import opened MilvusSanitizer
  import Errors

  // ---------------------------------------------------------------------
  // File names and file types
  // ---------------------------------------------------------------------

  /** `lastIndexOf(c)`: the index of the last occurrence of `c`. */
  function LastIndexOf(s: string, c: char): (r: Option<nat>)
    ensures r.Some? ==> r.value < |s| && s[r.value] == c && forall k :: r.value < k < |s| ==> s[k] != c
    ensures r.None? ==> forall k :: 0 <= k < |s| ==> s[k] != c
  {
    if |s| == 0 then None
    else if s[|s| - 1] == c then Some(|s| - 1)
    else LastIndexOf(s[..|s| - 1], c)
  }

  /** `extractFileSuffix`: "" for a null name or a name without a dot,
      otherwise the lower-cased text after the last dot. */
  function ExtractFileSuffix(fileName: Option<string>): (r: string)
    ensures forall k :: 0 <= k < |r| ==> r[k] != '.' && !IsAsciiUpper(r[k])
    ensures fileName.None? || '.' !in fileName.value ==> r == ""
    ensures fileName.Some? && '.' in fileName.value ==>
              var s := fileName.value;
              |r| < |s| && s[|s| - |r| - 1] == '.' && ToLower(s[|s| - |r|..]) == r
  {
    if fileName.None? then ""
    else
      var s := fileName.value;
      var dot := LastIndexOf(s, '.');
      if dot.None? then ""
      else
        assert '.' in s;
        ToLower(s[dot.value + 1..])
  }

  /** The lower-case suffixes each file type is recognised by. */
  function SuffixesOf(t: FileType): set<string>
  {
    match t
    case Word => {"doc", "docx"}
    case Excel => {"xls", "xlsx"}
    case PPT => {"ppt", "pptx"}
    case PDF => {"pdf"}
    case TXT => {"txt"}
    case Markdown => {"md", "markdown"}
    case Image => {"jpg", "jpeg", "png", "gif", "bmp"}
    case Other => {}
  }

  /** The `switch` of `determineFileType`, on the lower-cased suffix. */
  function LowerSuffixType(s: string): (r: FileType)
    ensures r != Other ==> s in SuffixesOf(r)
    ensures r == Other <==> forall t: FileType :: s !in SuffixesOf(t)
  {
    if s == "doc" || s == "docx" then Word
    else if s == "xls" || s == "xlsx" then Excel
    else if s == "ppt" || s == "pptx" then PPT
    else if s == "pdf" then PDF
    else if s == "txt" then TXT
    else if s == "md" || s == "markdown" then Markdown
    else if s == "jpg" || s == "jpeg" || s == "png" || s == "gif" || s == "bmp" then Image
    else Other
  }

  /** `determineFileType`: the file type whose suffix table holds the
      lower-cased suffix, and Other when none does. */
  function DetermineFileType(suffix: string): (r: FileType)
    ensures r != Other ==> ToLower(suffix) in SuffixesOf(r)
    ensures r == Other <==> forall t: FileType :: ToLower(suffix) !in SuffixesOf(t)
  {
    LowerSuffixType(ToLower(suffix))
  }

  /** The suffix tables are disjoint, so a suffix names at most one type;
      with the contract of `DetermineFileType` this makes the type of a
      suffix exactly the one whose table holds it. */
  lemma {:induction false} DetermineFileTypeExact(suffix: string, t: FileType)
    requires ToLower(suffix) in SuffixesOf(t)
    ensures DetermineFileType(suffix) == t
  {
    LowerSuffixGivesItsType(ToLower(suffix), t);
  }

  lemma {:induction false} LowerSuffixGivesItsType(s: string, t: FileType)
    requires s in SuffixesOf(t)
    ensures LowerSuffixType(s) == t
  {
    match t
    case Word => assert s == "doc" || s == "docx";
    case Excel => assert s == "xls" || s == "xlsx";
    case PPT => assert s == "ppt" || s == "pptx";
    case PDF => assert s == "pdf";
    case TXT => assert s == "txt";
    case Markdown => assert s == "md" || s == "markdown";
    case Image => assert s == "jpg" || s == "jpeg" || s == "png" || s == "gif" || s == "bmp";
    case Other =>
  }

  /** The type does not depend on the case of the suffix. */
  lemma {:induction false} DetermineFileTypeIgnoresCase(suffix: string)
    ensures DetermineFileType(ToLower(suffix)) == DetermineFileType(suffix)
  {
    ToLowerIdempotent(suffix);
  }

  // ---------------------------------------------------------------------
  // safePreview
  // ---------------------------------------------------------------------

  /** The characters the regular expression `\s` matches. */
  predicate IsRegexSpace(c: char)
  {
    c == ' ' || c == '\t' || c == '\n' || c as int == 11 || c as int == 12 || c == '\r'
  }

  /** `s` without its leading run of `\s` characters. */
  function DropSpaces(s: string): (r: string)
    ensures |r| <= |s| && r == s[|s| - |r|..]
    ensures forall k :: 0 <= k < |s| - |r| ==> IsRegexSpace(s[k])
    ensures |r| > 0 ==> !IsRegexSpace(r[0])
  {
    if |s| > 0 && IsRegexSpace(s[0]) then DropSpaces(s[1..]) else s
  }

  /** `replaceAll("\\s+", " ")`: every run of `\s` characters becomes one space. */
  function CollapseSpaces(s: string): (r: string)
    ensures |r| <= |s|
    ensures |s| > 0 && !IsRegexSpace(s[0]) ==> |r| > 0 && r[0] == s[0]
    ensures forall k :: 0 <= k < |r| && IsRegexSpace(r[k]) ==> r[k] == ' '
    ensures forall k :: 0 <= k < |r| - 1 ==> !(IsRegexSpace(r[k]) && IsRegexSpace(r[k + 1]))
  {
    if |s| == 0 then ""
    else if IsRegexSpace(s[0]) then " " + CollapseSpaces(DropSpaces(s[1..]))
    else [s[0]] + CollapseSpaces(s[1..])
  }

  /** A string already in collapsed form is left alone. */
  lemma {:induction false} CollapseSpacesFixed(s: string)
    requires forall k :: 0 <= k < |s| && IsRegexSpace(s[k]) ==> s[k] == ' '
    requires forall k :: 0 <= k < |s| - 1 ==> !(IsRegexSpace(s[k]) && IsRegexSpace(s[k + 1]))
    ensures CollapseSpaces(s) == s
  {
    if |s| > 0 {
      if |s| > 1 {
        assert !(IsRegexSpace(s[0]) && IsRegexSpace(s[1]));
      }
      assert IsRegexSpace(s[0]) ==> DropSpaces(s[1..]) == s[1..];
      CollapseSpacesFixed(s[1..]);
    }
  }

  /** Collapsing twice is collapsing once. */
  lemma {:induction false} CollapseSpacesIdempotent(s: string)
    ensures CollapseSpaces(CollapseSpaces(s)) == CollapseSpaces(s)
  {
    CollapseSpacesFixed(CollapseSpaces(s));
  }

  /** The characters other than `\s` characters, in order. */
  function Visible(s: string): (r: string)
    ensures forall k :: 0 <= k < |r| ==> !IsRegexSpace(r[k])
  {
    if |s| == 0 then ""
    else if IsRegexSpace(s[0]) then Visible(s[1..])
    else [s[0]] + Visible(s[1..])
  }

  lemma {:induction false} VisibleDropSpaces(s: string)
    ensures Visible(DropSpaces(s)) == Visible(s)
  {
    if |s| > 0 && IsRegexSpace(s[0]) {
      VisibleDropSpaces(s[1..]);
    }
  }

  /** Collapsing whitespace keeps every other character, in order. */
  lemma {:induction false} CollapseSpacesKeepsVisible(s: string)
    ensures Visible(CollapseSpaces(s)) == Visible(s)
    decreases |s|
  {
    if |s| > 0 {
      if IsRegexSpace(s[0]) {
        var rest := DropSpaces(s[1..]);
        CollapseSpacesKeepsVisible(rest);
        VisibleDropSpaces(s[1..]);
        assert (" " + CollapseSpaces(rest))[1..] == CollapseSpaces(rest);
      } else {
        CollapseSpacesKeepsVisible(s[1..]);
        assert ([s[0]] + CollapseSpaces(s[1..]))[1..] == CollapseSpaces(s[1..]);
      }
    }
  }

  /** `safePreview`: "<null>" for null; otherwise the collapsed and trimmed
      text, cut to `maxLen` characters followed by "..." when it is longer. */
  function SafePreview(value: Option<string>, maxLen: nat): (r: string)
    ensures value.None? ==> r == "<null>"
    ensures value.Some? ==> |r| <= maxLen + 3
    ensures value.Some? && |value.value| <= maxLen ==> r == JavaTrim(CollapseSpaces(value.value))
    ensures value.Some? ==>
              var v := JavaTrim(CollapseSpaces(value.value));
              (|v| <= maxLen ==> r == v)
              && (|v| > maxLen ==> |r| == maxLen + 3 && r[..maxLen] == v[..maxLen] && r[maxLen..] == "...")
  {
    if value.None? then "<null>"
    else
      var v := JavaTrim(CollapseSpaces(value.value));
      if |v| <= maxLen then v else v[..maxLen] + "..."
  }

  // ---------------------------------------------------------------------
  // findNestedNullPaths
  // ---------------------------------------------------------------------

  /** The errors `findNestedNullPaths` reports; `NullPathText` gives their text. */
  datatype NullPathError = NullAt(path: Path) | NullKey(path: Path)

  function NullPathText(e: NullPathError): string
  {
    match e
    case NullAt(p) => PathText(p) + " is null"
    case NullKey(p) => PathText(p) + " has null key"
  }

  lemma {:induction false} EntriesSizeLast(es: seq<Entry>)
    requires |es| > 0
    ensures EntriesSize(es) == EntriesSize(es[..|es| - 1]) + 1 + Size(es[|es| - 1].value)
  {
    var n := |es| - 1;
    assert es == es[..n] + [es[n]];
    EntriesSizeAppend(es[..n], [es[n]]);
    assert [es[n]][1..] == [];
  }

  lemma {:induction false} ItemsSizeLast(vs: seq<Value>)
    requires |vs| > 0
    ensures ItemsSize(vs) == ItemsSize(vs[..|vs| - 1]) + 1 + Size(vs[|vs| - 1])
  {
    var n := |vs| - 1;
    assert vs == vs[..n] + [vs[n]];
    ItemsSizeAppend(vs[..n], [vs[n]]);
    assert [vs[n]][1..] == [];
  }

  /** What `findNestedNullPaths(v, path)` returns: one error per null
      value and one per null map key (whose value is not inspected), in
      iteration order; strings, numbers and other objects report nothing. */
  function NullPaths(v: Value, path: Path): seq<NullPathError>
    decreases Size(v), 1
  {
    match v
    case Null => [NullAt(path)]
    case MapV(es) => EntryNullPaths(es, path)
    case ListV(items) => ItemNullPaths(items, path)
    case ArrayV(items) => ItemNullPaths(items, path)
    case _ => []
  }

  /** The errors of the entries of a map, stated from the last entry back. */
  function EntryNullPaths(es: seq<Entry>, path: Path): seq<NullPathError>
    decreases EntriesSize(es), 0
  {
    if |es| == 0 then []
    else
      var n := |es| - 1;
      EntriesSizeLast(es);
      EntryNullPaths(es[..n], path) + EntryErrors(es[n], path)
  }

  /** The errors of one map entry. */
  function EntryErrors(e: Entry, path: Path): seq<NullPathError>
    decreases Size(e.value), 2
  {
    if e.key.None? then [NullKey(path)] else NullPaths(e.value, Field(path, e.key.value))
  }

  /** The errors of the elements of a collection or an array. */
  function ItemNullPaths(vs: seq<Value>, path: Path): seq<NullPathError>
    decreases ItemsSize(vs), 0
  {
    if |vs| == 0 then []
    else
      var n := |vs| - 1;
      ItemsSizeLast(vs);
      ItemNullPaths(vs[..n], path) + NullPaths(vs[n], Item(path, n))
  }

  /** No error is reported exactly when the value holds no null value and
      no null key at any depth. */
  lemma {:induction false} NullPathsNone(v: Value, path: Path)
    ensures NullPaths(v, path) == [] <==> NullFree(v)
    decreases Size(v), 1
  {
    match v
    case MapV(es) => EntryNullPathsNone(es, path);
    case ListV(items) => ItemNullPathsNone(items, path);
    case ArrayV(items) => ItemNullPathsNone(items, path);
    case _ =>
  }

  lemma {:induction false} EntryNullPathsNone(es: seq<Entry>, path: Path)
    ensures EntryNullPaths(es, path) == [] <==> forall i :: 0 <= i < |es| ==> es[i].key.Some? && NullFree(es[i].value)
    decreases EntriesSize(es), 0
  {
    if |es| > 0 {
      var n := |es| - 1;
      EntriesSizeLast(es);
      EntryNullPathsNone(es[..n], path);
      if es[n].key.Some? {
        NullPathsNone(es[n].value, Field(path, es[n].key.value));
      }
      assert forall i :: 0 <= i < n ==> es[..n][i] == es[i];
    }
  }

  lemma {:induction false} ItemNullPathsNone(vs: seq<Value>, path: Path)
    ensures ItemNullPaths(vs, path) == [] <==> forall i :: 0 <= i < |vs| ==> NullFree(vs[i])
    decreases ItemsSize(vs), 0
  {
    if |vs| > 0 {
      var n := |vs| - 1;
      ItemsSizeLast(vs);
      ItemNullPathsNone(vs[..n], path);
      NullPathsNone(vs[n], Item(path, n));
      assert forall i :: 0 <= i < n ==> vs[..n][i] == vs[i];
    }
  }

  /** The value under a null key is never inspected: replacing it changes
      no error. */
  lemma {:induction false} NullKeyValueIgnored(es: seq<Entry>, i: nat, w: Value, path: Path)
    requires i < |es| && es[i].key.None?
    ensures EntryNullPaths(es[i := Entry(None, w)], path) == EntryNullPaths(es, path)
  {
    var fs := es[i := Entry(None, w)];
    var n := |es| - 1;
    if i < n {
      assert fs[..n] == es[..n][i := Entry(None, w)];
      NullKeyValueIgnored(es[..n], i, w, path);
    } else {
      assert fs[..n] == es[..n];
    }
  }

  lemma {:induction false} EntryValueSmaller(es: seq<Entry>, i: nat)
    requires i < |es|
    ensures Size(es[i].value) < Size(MapV(es))
  {
    EntriesSizeAppend(es[..i], es[i..]);
    assert es == es[..i] + es[i..];
  }

  lemma {:induction false} ItemSmaller(vs: seq<Value>, i: nat)
    requires i < |vs|
    ensures Size(vs[i]) < ItemsSize(vs)
  {
    ItemsSizeAppend(vs[..i], vs[i..]);
    assert vs == vs[..i] + vs[i..];
  }

  /** `findNestedNullPaths`. */
  method FindNestedNullPaths(v: Value, path: Path) returns (errors: seq<NullPathError>)
    ensures errors == NullPaths(v, path)
    decreases Size(v)
  {
    errors := [];
    if v.Null? {
      errors := errors + [NullAt(path)];
      return;
    }
    if v.MapV? {
      var es := v.entries;
      for i := 0 to |es|
        invariant errors == EntryNullPaths(es[..i], path)
      {
        assert es[..i + 1][..i] == es[..i];
        var e := es[i];
        if e.key.None? {
          errors := errors + [NullKey(path)];
          continue;
        }
        EntryValueSmaller(es, i);
        var nested := FindNestedNullPaths(e.value, Field(path, e.key.value));
        errors := errors + nested;
      }
      assert es[..|es|] == es;
      return;
    }
    if v.ListV? || v.ArrayV? {
      var vs := v.items;
      for i := 0 to |vs|
        invariant errors == ItemNullPaths(vs[..i], path)
      {
        assert vs[..i + 1][..i] == vs[..i];
        ItemSmaller(vs, i);
        var nested := FindNestedNullPaths(vs[i], Item(path, i));
        errors := errors + nested;
      }
      assert vs[..|vs|] == vs;
    }
  }

  // ---------------------------------------------------------------------
  // validateMilvusPayload
  // ---------------------------------------------------------------------

  /** The errors `validateMilvusPayload` reports; `PayloadErrorText` gives their text. */
  datatype PayloadError =
    | PayloadListNull
    | DocumentNull(doc: nat)
    | IdBlank(doc: nat)
    | ContentBlank(doc: nat)
    | MetadataNull(doc: nat)
    | Nested(error: NullPathError)

  function PayloadErrorText(e: PayloadError): string
  {
    match e
    case PayloadListNull => "payload list is null"
    case DocumentNull(i) => "payload[" + NatToString(i) + "] document is null"
    case IdBlank(i) => "payload[" + NatToString(i) + "].id is null/blank"
    case ContentBlank(i) => "payload[" + NatToString(i) + "].content is null/blank"
    case MetadataNull(i) => "payload[" + NatToString(i) + "].metadata is null"
    case Nested(n) => NullPathText(n)
  }

  function NestedErrors(ns: seq<NullPathError>): (r: seq<PayloadError>)
    ensures |r| == |ns|
  {
    if |ns| == 0 then [] else [Nested(ns[0])] + NestedErrors(ns[1..])
  }

  lemma {:induction false} NestedErrorsAppend(a: seq<NullPathError>, b: seq<NullPathError>)
    ensures NestedErrors(a + b) == NestedErrors(a) + NestedErrors(b)
  {
    if |a| > 0 {
      assert (a + b)[1..] == a[1..] + b;
      NestedErrorsAppend(a[1..], b);
    } else {
      assert a + b == b;
    }
  }

  /** A null or blank string, as `s == null || s.trim().isEmpty()`. */
  predicate NullOrBlank(s: Option<string>)
  {
    s.None? || JavaTrim(s.value) == ""
  }

  lemma {:induction false} NullOrBlankIff(s: Option<string>)
    ensures NullOrBlank(s) <==> s.None? || !HasText(s.value)
  {
    if s.Some? {
      HasTextIffNotBlank(s.value);
      BlankIffTrimEmpty(s.value);
    }
  }

  /** The errors of payload document `i`. */
  function DocumentErrors(d: Option<AiDocument>, i: nat): seq<PayloadError>
  {
    if d.None? then [DocumentNull(i)]
    else
      (if NullOrBlank(d.value.id) then [IdBlank(i)] else [])
      + (if NullOrBlank(d.value.text) then [ContentBlank(i)] else [])
      + (if d.value.metadata.None? then [MetadataNull(i)]
         else NestedErrors(NullPaths(MapV(d.value.metadata.value), PayloadMetadata(i))))
  }

  /** The errors of a payload list, stated from the last document back. */
  function PayloadErrors(docs: seq<Option<AiDocument>>): seq<PayloadError>
  {
    if |docs| == 0 then [] else PayloadErrors(docs[..|docs| - 1]) + DocumentErrors(docs[|docs| - 1], |docs| - 1)
  }

  lemma {:induction false} AppendAssoc<T>(a: seq<T>, b: seq<T>, c: seq<T>, d: seq<T>)
    ensures a + b + c + d == a + (b + c + d)
  {
  }

  lemma {:induction false} PayloadErrorsNext(ds: seq<Option<AiDocument>>, i: nat)
    requires i < |ds|
    ensures PayloadErrors(ds[..i + 1]) == PayloadErrors(ds[..i]) + DocumentErrors(ds[i], i)
  {
    assert ds[..i + 1][..i] == ds[..i];
  }

  /** `validateMilvusPayload`. */
  method ValidateMilvusPayload(docs: Option<seq<Option<AiDocument>>>) returns (errors: seq<PayloadError>)
    ensures docs.None? ==> errors == [PayloadListNull]
    ensures docs.Some? ==> errors == PayloadErrors(docs.value)
  {
    errors := [];
    if docs.None? {
      errors := errors + [PayloadListNull];
      return;
    }
    var ds := docs.value;
    for i := 0 to |ds|
      invariant errors == PayloadErrors(ds[..i])
    {
      ghost var before := errors;
      if ds[i].None? {
        errors := errors + [DocumentNull(i)];
        PayloadErrorsNext(ds, i);
        continue;
      }
      var d := ds[i].value;
      ghost var idErrors := if NullOrBlank(d.id) then [IdBlank(i)] else [];
      ghost var textErrors := if NullOrBlank(d.text) then [ContentBlank(i)] else [];
      if NullOrBlank(d.id) {
        errors := errors + [IdBlank(i)];
      }
      assert errors == before + idErrors;
      if NullOrBlank(d.text) {
        errors := errors + [ContentBlank(i)];
      }
      assert errors == before + idErrors + textErrors;
      if d.metadata.None? {
        errors := errors + [MetadataNull(i)];
        PayloadErrorsStep(ds, i, before, idErrors, textErrors, [MetadataNull(i)], errors);
        continue;
      }
      var nested := FindNestedNullPaths(MapV(d.metadata.value), PayloadMetadata(i));
      errors := errors + NestedErrors(nested);
      PayloadErrorsStep(ds, i, before, idErrors, textErrors, NestedErrors(nested), errors);
    }
    assert ds[..|ds|] == ds;
  }

  /** One present document of the validation loop: its id, content and
      metadata errors follow those of the documents before it. */
  lemma {:induction false} PayloadErrorsStep(ds: seq<Option<AiDocument>>, i: nat, before: seq<PayloadError>,
                                             idErrors: seq<PayloadError>, textErrors: seq<PayloadError>,
                                             tail: seq<PayloadError>, after: seq<PayloadError>)
    requires i < |ds| && ds[i].Some? && before == PayloadErrors(ds[..i])
    requires idErrors == if NullOrBlank(ds[i].value.id) then [IdBlank(i)] else []
    requires textErrors == if NullOrBlank(ds[i].value.text) then [ContentBlank(i)] else []
    requires tail == if ds[i].value.metadata.None? then [MetadataNull(i)]
                     else NestedErrors(NullPaths(MapV(ds[i].value.metadata.value), PayloadMetadata(i)))
    requires after == before + idErrors + textErrors + tail
    ensures after == PayloadErrors(ds[..i + 1])
  {
    PayloadErrorsNext(ds, i);
    AppendAssoc(before, idErrors, textErrors, tail);
  }

  /** A payload document has no error exactly when the vector store can
      take it. */
  lemma {:induction false} DocumentErrorsNone(d: Option<AiDocument>, i: nat)
    ensures DocumentErrors(d, i) == [] <==> d.Some? && MilvusSafe(d.value)
  {
    if d.Some? {
      var x := d.value;
      if x.id.Some? {
        BlankIffTrimEmpty(x.id.value);
        HasTextIffNotBlank(x.id.value);
      }
      if x.text.Some? {
        BlankIffTrimEmpty(x.text.value);
        HasTextIffNotBlank(x.text.value);
      }
      if x.metadata.Some? {
        NullPathsNone(MapV(x.metadata.value), PayloadMetadata(i));
      }
    }
  }

  /** Every document of the list is present and safe for the vector
      store, stated from the last document back. */
  predicate AllAccepted(docs: seq<Option<AiDocument>>)
  {
    |docs| > 0 ==> AllAccepted(docs[..|docs| - 1]) && docs[|docs| - 1].Some? && MilvusSafe(docs[|docs| - 1].value)
  }

  /** A payload list validates exactly when every document in it is
      present and safe for the vector store. */
  lemma {:induction false} PayloadErrorsNone(docs: seq<Option<AiDocument>>)
    ensures PayloadErrors(docs) == [] <==> AllAccepted(docs)
  {
    if |docs| > 0 {
      var n := |docs| - 1;
      PayloadErrorsNone(docs[..n]);
      DocumentErrorsNone(docs[n], n);
    }
  }

  lemma {:induction false} AllAcceptedIndex(docs: seq<Option<AiDocument>>)
    ensures AllAccepted(docs) <==> forall i :: 0 <= i < |docs| ==> docs[i].Some? && MilvusSafe(docs[i].value)
  {
    if |docs| > 0 {
      var n := |docs| - 1;
      AllAcceptedIndex(docs[..n]);
      assert forall i :: 0 <= i < n ==> docs[..n][i] == docs[i];
    }
  }

  /** The documents of a list, each present. */
  function Present(docs: seq<AiDocument>): (r: seq<Option<AiDocument>>)
    ensures |r| == |docs|
    ensures forall i :: 0 <= i < |r| ==> r[i] == Some(docs[i])
  {
    seq(|docs|, i requires 0 <= i < |docs| => Some(docs[i]))
  }

  /** What the sanitiser emits always passes the payload validation, so the
      "payload validation failed" branch of the upload can never be taken. */
  lemma {:induction false} SanitizedPayloadValid(src: seq<Option<AiDocument>>, b: Batch)
    ensures PayloadErrors(Present(SanitizePrefix(src, |src|, b).documents)) == []
  {
    var docs := SanitizePrefix(src, |src|, b).documents;
    SanitizePrefixEmits(src, |src|, b);
    var present := Present(docs);
    forall i | 0 <= i < |present|
      ensures present[i].Some? && MilvusSafe(present[i].value)
    {
      assert present[i] == Some(docs[i]) && Emitted(docs[i], i);
    }
    AllAcceptedIndex(present);
    PayloadErrorsNone(present);
  }

  // ---------------------------------------------------------------------
  // The chunk loop of uploadAndProcess
  // ---------------------------------------------------------------------

  /** A document produced by the parser or the splitter, with the text of
      its `toString()`. */
  datatype Chunk = Chunk(doc: AiDocument, shown: string)

  /** The text the upload reads from a chunk: `getText()`, or `toString()`
      when that is null. */
  function Content(c: Chunk): string
  {
    if c.doc.text.Some? then c.doc.text.value else c.shown
  }

  /** A chunk the filter before the loop keeps: its content is not blank. */
  predicate HasContent(c: Chunk)
  {
    HasText(Content(c))
  }

  /** The check `content.trim().isEmpty()` fails exactly for the chunks with content. */
  lemma {:induction false} HasContentIff(c: Chunk)
    ensures HasContent(c) <==> JavaTrim(Content(c)) != ""
  {
    HasTextIffNotBlank(Content(c));
    BlankIffTrimEmpty(Content(c));
  }

  /** The chunks the filter keeps, in order. */
  function ValidChunks(chunks: seq<Chunk>): (r: seq<Chunk>)
    ensures |r| <= |chunks|
    ensures forall c :: c in r <==> c in chunks && HasContent(c)
  {
    Filter(chunks, HasContent)
  }

  /** The id given to the chunk at `chunkIndex` when its own id is blank:
      `docId_chunkIndex_(baseTimestamp + chunkIndex)`. */
  function GeneratedId(docId: int, chunkIndex: nat, baseTimestamp: int): (r: string)
    ensures HasText(r)
  {
    var r := IntToString(docId) + "_" + (NatToString(chunkIndex) + ("_" + IntToString(baseTimestamp + chunkIndex)));
    assert !IsJavaSpace(r[|r| - 1]);
    HasTextIffNotBlank(r);
    r
  }

  /** The number of leading ASCII digits. */
  function LeadingDigits(s: string): (r: nat)
    ensures r <= |s|
  {
    if |s| > 0 && IsAsciiDigit(s[0]) then 1 + LeadingDigits(s[1..]) else 0
  }

  /** A digit string followed by '_' can be read back off the front. */
  lemma {:induction false} LeadingDigitsBeforeSeparator(a: string, x: string)
    requires forall k :: 0 <= k < |a| ==> IsAsciiDigit(a[k])
    requires |x| > 0 && x[0] == '_'
    ensures LeadingDigits(a + x) == |a|
  {
    if |a| > 0 {
      assert (a + x)[1..] == a[1..] + x;
      LeadingDigitsBeforeSeparator(a[1..], x);
    } else {
      assert a + x == x;
    }
  }

  /** Different chunk indexes give different generated ids. */
  lemma {:induction false} GeneratedIdInjective(docId: int, i: nat, j: nat, baseTimestamp: int)
    requires GeneratedId(docId, i, baseTimestamp) == GeneratedId(docId, j, baseTimestamp)
    ensures i == j
  {
    var p := IntToString(docId) + "_";
    var a, b := NatToString(i), NatToString(j);
    var x, y := "_" + IntToString(baseTimestamp + i), "_" + IntToString(baseTimestamp + j);
    assert a + x == (p + (a + x))[|p|..];
    assert b + y == (p + (b + y))[|p|..];
    LeadingDigitsBeforeSeparator(a, x);
    LeadingDigitsBeforeSeparator(b, y);
    assert a == (a + x)[..|a|] && b == (b + y)[..|b|];
    NatToStringInjective(i, j);
  }

  /** The id of the chunk at `chunkIndex`: its own id unless that is null or blank. */
  function ChunkId(c: Chunk, docId: int, chunkIndex: nat, baseTimestamp: int): (r: string)
    ensures HasText(r)
  {
    if c.doc.id.None? || !HasText(c.doc.id.value) then GeneratedId(docId, chunkIndex, baseTimestamp) else c.doc.id.value
  }

  /** `String.valueOf(Boolean)`. */
  function BooleanText(b: Option<bool>): string
  {
    if b.None? then "null" else if b.value then "true" else "false"
  }

  /** The metadata of a prepared chunk: a copy of the chunk's metadata (or
      an empty map) with the five ingestion keys put into it. */
  function ChunkMetadata(c: Chunk, b: Batch, chunkIndex: nat): seq<Entry>
  {
    var m0 := c.doc.metadata.GetOr([]);
    var m1 := Put(m0, "docId", Str(IntToString(b.docId)));
    var m2 := Put(m1, "baseId", Str(IntToString(b.baseId)));
    var m3 := Put(m2, "fileName", if b.fileName.Some? then Str(b.fileName.value) else Null);
    var m4 := Put(m3, "chunkIndex", Str(NatToString(chunkIndex)));
    Put(m4, "isEnabled", Str(BooleanText(b.isEnabled)))
  }

  /** The keys the loop writes into the metadata. */
  predicate Injected(k: string)
  {
    k == "docId" || k == "baseId" || k == "fileName" || k == "chunkIndex" || k == "isEnabled"
  }

  /** The prepared metadata carries the ingestion keys, and under every
      other key exactly what the chunk's own metadata holds. */
  lemma {:induction false} ChunkMetadataLookup(c: Chunk, b: Batch, chunkIndex: nat, k: string)
    ensures var m := ChunkMetadata(c, b, chunkIndex);
      && Lookup(m, "docId") == Some(Str(IntToString(b.docId)))
      && Lookup(m, "baseId") == Some(Str(IntToString(b.baseId)))
      && Lookup(m, "fileName") == Some(if b.fileName.Some? then Str(b.fileName.value) else Null)
      && Lookup(m, "chunkIndex") == Some(Str(NatToString(chunkIndex)))
      && Lookup(m, "isEnabled") == Some(Str(BooleanText(b.isEnabled)))
      && (!Injected(k) ==> Lookup(m, k) == Lookup(c.doc.metadata.GetOr([]), k))
  {
    var m0 := c.doc.metadata.GetOr([]);
    var m1 := Put(m0, "docId", Str(IntToString(b.docId)));
    var m2 := Put(m1, "baseId", Str(IntToString(b.baseId)));
    var m3 := Put(m2, "fileName", if b.fileName.Some? then Str(b.fileName.value) else Null);
    var m4 := Put(m3, "chunkIndex", Str(NatToString(chunkIndex)));
    forall key | key in {k, "docId", "baseId", "fileName", "chunkIndex", "isEnabled"}
      ensures Lookup(ChunkMetadata(c, b, chunkIndex), key)
              == if key == "isEnabled" then Some(Str(BooleanText(b.isEnabled)))
                 else if key == "chunkIndex" then Some(Str(NatToString(chunkIndex)))
                 else if key == "fileName" then Some(if b.fileName.Some? then Str(b.fileName.value) else Null)
                 else if key == "baseId" then Some(Str(IntToString(b.baseId)))
                 else if key == "docId" then Some(Str(IntToString(b.docId)))
                 else Lookup(m0, key)
    {
      LookupPut(m0, "docId", Str(IntToString(b.docId)), key);
      LookupPut(m1, "baseId", Str(IntToString(b.baseId)), key);
      LookupPut(m2, "fileName", if b.fileName.Some? then Str(b.fileName.value) else Null, key);
      LookupPut(m3, "chunkIndex", Str(NatToString(chunkIndex)), key);
      LookupPut(m4, "isEnabled", Str(BooleanText(b.isEnabled)), key);
    }
  }

  /** The document the loop builds from the chunk at `chunkIndex`. */
  function PrepareChunk(c: Chunk, b: Batch, chunkIndex: nat): AiDocument
  {
    AiDocument(Some(ChunkId(c, b.docId, chunkIndex, b.baseTimestamp)), Some(Content(c)), Some(ChunkMetadata(c, b, chunkIndex)))
  }

  /** What the loop has built after the first `|chunks|` chunks: blank
      chunks are skipped, every chunk uses up one chunk index. */
  function PreparedChunks(chunks: seq<Chunk>, b: Batch): (r: seq<AiDocument>)
    ensures |r| <= |chunks|
  {
    if |chunks| == 0 then []
    else
      var n := |chunks| - 1;
      PreparedChunks(chunks[..n], b) + (if HasContent(chunks[n]) then [PrepareChunk(chunks[n], b, n)] else [])
  }

  /** The positions of the chunks with content, in increasing order. */
  function ContentIndexes(chunks: seq<Chunk>): (r: seq<nat>)
    ensures forall k :: 0 <= k < |r| ==> r[k] < |chunks| && HasContent(chunks[r[k]])
    ensures forall k, l :: 0 <= k < l < |r| ==> r[k] < r[l]
    ensures forall j :: 0 <= j < |chunks| && HasContent(chunks[j]) ==> j in r
  {
    if |chunks| == 0 then []
    else
      var n := |chunks| - 1;
      var r := ContentIndexes(chunks[..n]) + (if HasContent(chunks[n]) then [n] else []);
      assert forall j :: 0 <= j < n ==> chunks[..n][j] == chunks[j];
      r
  }

  /** The `k`-th prepared document comes from the `k`-th chunk with
      content, and carries that chunk's position, not `k`, as its index. */
  lemma {:induction false} PreparedChunksIndexes(chunks: seq<Chunk>, b: Batch)
    ensures var r := PreparedChunks(chunks, b);
      var ix := ContentIndexes(chunks);
      |r| == |ix| && forall k :: 0 <= k < |r| ==> r[k] == PrepareChunk(chunks[ix[k]], b, ix[k])
  {
    if |chunks| > 0 {
      var n := |chunks| - 1;
      var pre := chunks[..n];
      PreparedChunksIndexes(pre, b);
      var r0, ix0 := PreparedChunks(pre, b), ContentIndexes(pre);
      assert PreparedChunks(chunks, b) == r0 + (if HasContent(chunks[n]) then [PrepareChunk(chunks[n], b, n)] else []);
      assert ContentIndexes(chunks) == ix0 + (if HasContent(chunks[n]) then [n] else []);
      forall k | 0 <= k < |r0| ensures r0[k] == PrepareChunk(chunks[ix0[k]], b, ix0[k]) {
        assert pre[ix0[k]] == chunks[ix0[k]];
      }
    }
  }

  /** Every prepared document is one the sanitiser keeps, with a non-blank
      id, its chunk's content, and its chunk index in the metadata. */
  lemma {:induction false} PrepareChunkFacts(c: Chunk, b: Batch, chunkIndex: nat)
    requires HasContent(c)
    ensures var d := PrepareChunk(c, b, chunkIndex);
      && Survives(Some(d))
      && d.text == Some(Content(c))
      && d.id.Some? && HasText(d.id.value)
      && (!NullOrBlank(c.doc.id) ==> d.id == c.doc.id)
      && (NullOrBlank(c.doc.id) ==> d.id == Some(GeneratedId(b.docId, chunkIndex, b.baseTimestamp)))
      && Lookup(d.metadata.value, "chunkIndex") == Some(Str(NatToString(chunkIndex)))
  {
    ChunkMetadataLookup(c, b, chunkIndex, "chunkIndex");
    NullOrBlankIff(c.doc.id);
  }

  /** `chunks` holds only chunks with content, so the loop skips none of
      them, and the sanitiser will keep every document it builds. */
  lemma {:induction false} PreparedAll(chunks: seq<Chunk>, b: Batch)
    requires forall k :: 0 <= k < |chunks| ==> HasContent(chunks[k])
    ensures |PreparedChunks(chunks, b)| == |chunks|
    ensures forall k :: 0 <= k < |chunks| ==> Survives(Some(PreparedChunks(chunks, b)[k]))
  {
    if |chunks| > 0 {
      var n := |chunks| - 1;
      var init := chunks[..n];
      forall k | 0 <= k < n
        ensures HasContent(init[k])
      {
        assert init[k] == chunks[k];
      }
      PreparedAll(init, b);
      PreparedAllStep(chunks, init, b);
    }
  }

  /** The last chunk has content: it adds one document, which survives. */
  lemma {:induction false} PreparedAllStep(chunks: seq<Chunk>, init: seq<Chunk>, b: Batch)
    requires |chunks| > 0 && init == chunks[..|chunks| - 1] && HasContent(chunks[|chunks| - 1])
    requires |PreparedChunks(init, b)| == |init|
    requires forall k :: 0 <= k < |init| ==> Survives(Some(PreparedChunks(init, b)[k]))
    ensures |PreparedChunks(chunks, b)| == |chunks|
    ensures forall k :: 0 <= k < |chunks| ==> Survives(Some(PreparedChunks(chunks, b)[k]))
  {
    var n := |chunks| - 1;
    var prev := PreparedChunks(init, b);
    var doc := PrepareChunk(chunks[n], b, n);
    var all := PreparedChunks(chunks, b);
    assert all == prev + [doc];
    assert Survives(Some(doc));
    forall k | 0 <= k < |chunks|
      ensures Survives(Some(all[k]))
    {
      if k < n {
        assert all[k] == prev[k];
      }
    }
  }

  /** The chunk loop. */
  method AttachMetadata(chunks: seq<Chunk>, b: Batch) returns (prepared: seq<AiDocument>)
    ensures prepared == PreparedChunks(chunks, b)
  {
    prepared := [];
    var chunkIndex := 0;
    for i := 0 to |chunks|
      invariant chunkIndex == i
      invariant prepared == PreparedChunks(chunks[..i], b)
    {
      assert chunks[..i + 1][..i] == chunks[..i];
      var chunk := chunks[i];
      var content := Content(chunk);
      HasContentIff(chunk);
      if JavaTrim(content) == "" {
        chunkIndex := chunkIndex + 1;
        continue;
      }
      NullOrBlankIff(chunk.doc.id);
      var chunkId := if NullOrBlank(chunk.doc.id)
                     then GeneratedId(b.docId, chunkIndex, b.baseTimestamp)
                     else chunk.doc.id.value;
      // the guard against a blank id never fires
      assert HasText(chunkId) by {
        assert chunkId == ChunkId(chunk, b.docId, chunkIndex, b.baseTimestamp);
      }
      var metadata := chunk.doc.metadata.GetOr([]);
      metadata := Put(metadata, "docId", Str(IntToString(b.docId)));
      metadata := Put(metadata, "baseId", Str(IntToString(b.baseId)));
      metadata := Put(metadata, "fileName", if b.fileName.Some? then Str(b.fileName.value) else Null);
      metadata := Put(metadata, "chunkIndex", Str(NatToString(chunkIndex)));
      metadata := Put(metadata, "isEnabled", Str(BooleanText(b.isEnabled)));
      prepared := prepared + [AiDocument(Some(chunkId), Some(content), Some(metadata))];
      chunkIndex := chunkIndex + 1;
    }
    assert chunks[..|chunks|] == chunks;
  }

  // ---------------------------------------------------------------------
  // uploadAndProcess
  // ---------------------------------------------------------------------

  /** How the vector store's failure is reported, by its message. */
  datatype StoreFailure = MissingId | CollectionAccess | NullString | Generic(message: Option<string>)

  function ClassifyStoreError(message: Option<string>): (r: StoreFailure)
    ensures r == MissingId <==> message.Some? && Contains(message.value, "id is not provided")
    ensures r == CollectionAccess ==> message.Some? && Contains(message.value, "collection")
    ensures r == NullString ==> message.Some? && Contains(message.value, "String.length()") && Contains(message.value, "is null")
    ensures r.Generic? ==> r.message == message
  {
    if message.Some? && Contains(message.value, "id is not provided") then MissingId
    else if message.Some? && Contains(message.value, "collection") then CollectionAccess
    else if message.Some? && Contains(message.value, "String.length()") && Contains(message.value, "is null") then NullString
    else Generic(message)
  }

  /** The step of processing an upload that failed. */
  datatype Stage =
    | ParserFailed
    | NothingParsed
    | BlankText
    | NoChunks
    | NoValidChunks
    | NothingSafe(warnings: seq<Warning>)
    | PayloadInvalid(errors: seq<PayloadError>)
    | StoreFailed(failure: StoreFailure)

  /** Why an upload was refused or failed. */
  datatype UploadError =
    | Rejected(exception: Errors.Exception)
    | ProcessingFailed(fileName: string, stage: Stage)

  /** The extracted text: the parsed contents that are not empty, joined
      with blank lines. */
  function FullText(parsed: seq<Chunk>): string
  {
    Join(Filter(Map(parsed, Content), (t: string) => t != ""), "\n\n")
  }

  /** The extracted text is blank exactly when every parsed document's content is. */
  lemma {:induction false} FullTextBlank(parsed: seq<Chunk>)
    ensures IsBlank(FullText(parsed)) <==> forall k :: 0 <= k < |parsed| ==> IsBlank(Content(parsed[k]))
  {
    var contents := Map(parsed, Content);
    var kept := Filter(contents, (t: string) => t != "");
    JoinBlank(kept, "\n\n");
    assert forall k :: 0 <= k < |parsed| ==> contents[k] == Content(parsed[k]);
    forall k | 0 <= k < |parsed| && !IsBlank(Content(parsed[k]))
      ensures exists l :: 0 <= l < |kept| && !IsBlank(kept[l])
    {
      assert contents[k] in contents;
      assert contents[k] in kept;
    }
    forall l | 0 <= l < |kept| && !IsBlank(kept[l])
      ensures exists k :: 0 <= k < |parsed| && !IsBlank(Content(parsed[k]))
    {
      assert kept[l] in kept;
      assert kept[l] in contents;
    }
  }

  /** What the processing part of `uploadAndProcess` (the `try` block)
      produces: the number of chunks stored, or the failing step. */
  function Outcome(b: Batch, parsed: Option<seq<Chunk>>, chunks: seq<Chunk>, storeError: Option<Option<string>>): Result<nat, Stage>
  {
    if parsed.None? then Err(ParserFailed)
    else if |parsed.value| == 0 then Err(NothingParsed)
    else if JavaTrim(FullText(parsed.value)) == "" then Err(BlankText)
    else if |chunks| == 0 then Err(NoChunks)
    else
      var valid := ValidChunks(chunks);
      if |valid| == 0 then Err(NoValidChunks)
      else StoreStage(b, valid, storeError)
  }

  /** The part of the upload pipeline after the chunks with content are
      selected: attach metadata, sanitise, validate and store. */
  function StoreStage(b: Batch, valid: seq<Chunk>, storeError: Option<Option<string>>): Result<nat, Stage>
  {
    var prepared := PreparedChunks(valid, b);
    if |prepared| == 0 then Ok(0)
    else
      var sanitized := SanitizePrefix(Present(prepared), |prepared|, b);
      if |sanitized.documents| == 0 then Err(NothingSafe(sanitized.warnings))
      else
        var errors := PayloadErrors(Present(sanitized.documents));
        if |errors| > 0 then Err(PayloadInvalid(errors))
        else if storeError.Some? then Err(StoreFailed(ClassifyStoreError(storeError.value)))
        else Ok(|sanitized.documents|)
  }

  /** Chunks with content are all prepared, all kept by the sanitiser,
      and the sanitised payload validates. */
  lemma {:induction false} PreparedSanitized(valid: seq<Chunk>, b: Batch, storeError: Option<Option<string>>)
    requires forall k :: 0 <= k < |valid| ==> HasContent(valid[k])
    requires |valid| > 0
    ensures StoreStage(b, valid, storeError) ==
      if storeError.Some? then Err(StoreFailed(ClassifyStoreError(storeError.value))) else Ok(|valid|)
  {
    PreparedAll(valid, b);
    var prepared := PreparedChunks(valid, b);
    SurvivingTextsAll(Present(prepared), |prepared|);
    SanitizedPayloadValid(Present(prepared), b);
  }

  /** An upload succeeds exactly when the file parses, some of its text is
      not blank, some chunk has content and the vector store accepts the
      chunks; it then stores one chunk per chunk with content.  Neither the
      "nothing safe for Milvus" nor the "payload validation failed" step
      can ever fail. */
  lemma {:induction false} OutcomeMeaning(b: Batch, parsed: Option<seq<Chunk>>, chunks: seq<Chunk>, storeError: Option<Option<string>>)
    ensures var r := Outcome(b, parsed, chunks, storeError);
      && (r.Ok? <==> parsed.Some? && (exists k :: 0 <= k < |parsed.value| && !IsBlank(Content(parsed.value[k])))
                     && (exists c :: c in chunks && HasContent(c)) && storeError.None?)
      && (r.Ok? ==> r.value == |ValidChunks(chunks)| > 0)
      && (r.Err? ==> !r.error.NothingSafe? && !r.error.PayloadInvalid?)
  {
    if parsed.Some? {
      SomeTextIff(parsed.value);
    }
    SomeValidIff(chunks);
    if parsed.Some? && |parsed.value| > 0 && JavaTrim(FullText(parsed.value)) != ""
       && |chunks| > 0 && |ValidChunks(chunks)| > 0 {
      OutcomeStored(b, parsed.value, chunks, storeError);
    }
  }

  /** Past the parsing and chunking checks, the outcome is the store's. */
  lemma {:induction false} OutcomeStored(b: Batch, parsed: seq<Chunk>, chunks: seq<Chunk>, storeError: Option<Option<string>>)
    requires |parsed| > 0 && JavaTrim(FullText(parsed)) != ""
    requires |chunks| > 0 && |ValidChunks(chunks)| > 0
    ensures Outcome(b, Some(parsed), chunks, storeError)
            == if storeError.Some? then Err(StoreFailed(ClassifyStoreError(storeError.value))) else Ok(|ValidChunks(chunks)|)
  {
    var valid := ValidChunks(chunks);
    assert forall k :: 0 <= k < |valid| ==> valid[k] in valid;
    PreparedSanitized(valid, b, storeError);
  }

  /** The parsed text passes the emptiness and blankness checks exactly
      when some parsed piece is not blank. */
  lemma {:induction false} SomeTextIff(parsed: seq<Chunk>)
    ensures (|parsed| > 0 && JavaTrim(FullText(parsed)) != "")
      <==> exists k :: 0 <= k < |parsed| && !IsBlank(Content(parsed[k]))
  {
    FullTextBlank(parsed);
    BlankIffTrimEmpty(FullText(parsed));
  }

  /** Some chunk is kept exactly when some chunk has content. */
  lemma {:induction false} SomeValidIff(chunks: seq<Chunk>)
    ensures |ValidChunks(chunks)| > 0 <==> exists c :: c in chunks && HasContent(c)
  {
    var valid := ValidChunks(chunks);
    if |valid| > 0 {
      assert valid[0] in valid;
    }
    if exists c :: c in chunks && HasContent(c) {
      var c :| c in chunks && HasContent(c);
      assert c in valid;
    }
  }

  /** The document row an upload creates. */
  function NewDocument(docId: int, baseId: int, fileName: string, createdAt: int): (r: Document)
    ensures r.status == NoneYet && r.totalChunks == 0 && r.isEnabled
  {
    var suffix := ExtractFileSuffix(Some(fileName));
    Document(docId, baseId, fileName, suffix, DetermineFileType(suffix), None, true, NoneYet, 0, createdAt, createdAt)
  }

  /** The row after processing: Success with the stored chunk count, or
      Failure with the count still 0. */
  function Finished(created: Document, outcome: Result<nat, Stage>, at: int): (r: Document)
    ensures r.docId == created.docId
    ensures r.status == (if outcome.Ok? then Success else Failure)
    ensures r.totalChunks == (if outcome.Ok? then outcome.value else created.totalChunks)
    ensures r.(status := created.status, totalChunks := created.totalChunks, updatedAt := created.updatedAt) == created
  {
    if outcome.Ok? then created.(status := Success, totalChunks := outcome.value, updatedAt := at)
    else created.(status := Failure, updatedAt := at)
  }

  /** The processing part of `uploadAndProcess`. */
  method Process(b: Batch, parsed: Option<seq<Chunk>>, chunks: seq<Chunk>, storeError: Option<Option<string>>)
    returns (r: Result<nat, Stage>)
    ensures r == Outcome(b, parsed, chunks, storeError)
  {
    if parsed.None? {
      return Err(ParserFailed);
    }
    if |parsed.value| == 0 {
      return Err(NothingParsed);
    }
    var fullText := FullText(parsed.value);
    if JavaTrim(fullText) == "" {
      return Err(BlankText);
    }
    if |chunks| == 0 {
      return Err(NoChunks);
    }
    var validChunks := ValidChunks(chunks);
    if |validChunks| == 0 {
      return Err(NoValidChunks);
    }
    var chunksWithMetadata := AttachMetadata(validChunks, b);
    if |chunksWithMetadata| == 0 {
      return Ok(0);
    }
    var sanitized := Sanitize(Some(Present(chunksWithMetadata)), b);
    if |sanitized.documents| == 0 {
      return Err(NothingSafe(sanitized.warnings));
    }
    var payloadErrors := ValidateMilvusPayload(Some(Present(sanitized.documents)));
    if |payloadErrors| > 0 {
      return Err(PayloadInvalid(payloadErrors));
    }
    if storeError.Some? {
      return Err(StoreFailed(ClassifyStoreError(storeError.value)));
    }
    return Ok(|sanitized.documents|);
  }

  /** `uploadAndProcess`: `docId` is the generated id, `createdAt` and
      `finishedAt` the clock at the two saves, and the parser's documents,
      the splitter's chunks and the vector store's failure (with its
      message) are inputs.  The method is transactional: a failure saves
      the Failure status and rethrows, so the rollback removes the row
      again and a failed upload leaves no document behind. */
  method UploadAndProcess(db: Database, rawFileName: Option<string>, baseId: int, userId: int, docId: int,
                          createdAt: int, finishedAt: int, baseTimestamp: int,
                          parsed: Option<seq<Chunk>>, chunks: seq<Chunk>, storeError: Option<Option<string>>)
    returns (r: Result<nat, UploadError>)
    requires forall d :: d in db.documents ==> d.docId != docId
    modifies db
    ensures var kb := old(db.FindBase(baseId));
      && (kb.None? ==> r == Err(Rejected(Errors.ResourceNotFound(Some("KnowledgeBase not found with id: " + IntToString(baseId))))))
      && (kb.Some? && kb.value.userId != userId ==>
            r == Err(Rejected(Errors.IllegalArgument(Some("User " + IntToString(userId) + " does not have access to knowledge base " + IntToString(baseId))))))
      && (kb.None? || kb.value.userId != userId ==> db.documents == old(db.documents))
    ensures var kb := old(db.FindBase(baseId));
      var fileName := NormalizeString(rawFileName, Some("unnamed-file")).value;
      var created := NewDocument(docId, baseId, fileName, createdAt);
      var outcome := Outcome(Batch(docId, baseId, Some(fileName), Some(true), baseTimestamp), parsed, chunks, storeError);
      kb.Some? && kb.value.userId == userId ==>
        && (outcome.Ok? ==>
              && r == Ok(outcome.value)
              && db.documents == old(db.documents) + [Finished(created, outcome, finishedAt)]
              && (old(db.Valid()) ==> db.FindDocument(docId) == Some(Finished(created, outcome, finishedAt))))
        && (outcome.Err? ==>
              && r == Err(ProcessingFailed(fileName, outcome.error))
              && db.documents == old(db.documents)
              && forall d :: d in db.documents ==> d.docId != docId)
    ensures db.conversations == old(db.conversations) && db.messages == old(db.messages)
    ensures db.bases == old(db.bases) && db.users == old(db.users)
    ensures old(db.Valid()) ==> db.Valid()
  {
    var start := db.Relations();
    var fileName := NormalizeString(rawFileName, Some("unnamed-file")).value;
    var knowledgeBase := db.FindBase(baseId);
    if knowledgeBase.None? {
      return Err(Rejected(Errors.ResourceNotFound(Some("KnowledgeBase not found with id: " + IntToString(baseId)))));
    }
    if knowledgeBase.value.userId != userId {
      return Err(Rejected(Errors.IllegalArgument(Some("User " + IntToString(userId) + " does not have access to knowledge base " + IntToString(baseId)))));
    }
    var document := NewDocument(docId, baseId, fileName, createdAt);
    db.SaveDocument(document);
    var b := Batch(docId, baseId, Some(fileName), Some(true), baseTimestamp);
    var outcome := Process(b, parsed, chunks, storeError);
    var finished := Finished(document, outcome, finishedAt);
    UpsertFreshTwice(old(db.documents), document, finished, DocumentKey);
    db.SaveDocument(finished);
    if outcome.Ok? {
      return Ok(outcome.value);
    }
    // The rethrown exception leaves the transaction, which undoes both saves.
    db.RollBack(start);
    return Err(ProcessingFailed(fileName, outcome.error));
  }
}
