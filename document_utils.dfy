/**
 * The document page's label lookups (`MatchStatus`, `MatchFileType`): a
 * value is looked up in a plain JavaScript object keyed both by the
 * backend's enum numbers and by the enum names; a falsy lookup falls back
 * to the value itself when it is truthy, and to "-" otherwise.
 */
module DocumentUtils {
  import opened Text
  import GoFileUtils

  /** The JavaScript values a lookup can be given or give back; `Object`
      is any object or function. */
  datatype JsValue = Undefined | Null | Bool(b: bool) | Int(i: int) | Str(s: string) | Object

  /** JavaScript truthiness. */
  predicate Truthy(v: JsValue)
  {
    match v
    case Undefined => false
    case Null => false
    case Bool(b) => b
    case Int(i) => i != 0
    case Str(s) => s != ""
    case Object => true
  }

  /** The property key a value is turned into by `obj[value]`; a plain
      object converts to "[object Object]". */
  function PropertyKey(v: JsValue): string
  {
    match v
    case Undefined => "undefined"
    case Null => "null"
    case Bool(b) => if b then "true" else "false"
    case Int(i) => IntToString(i)
    case Str(s) => s
    case Object => "[object Object]"
  }

  /** The names every plain object inherits from `Object.prototype`. */
  const InheritedKeys: set<string> := {
    "constructor", "hasOwnProperty", "isPrototypeOf", "propertyIsEnumerable",
    "toLocaleString", "toString", "valueOf", "__proto__",
    "__defineGetter__", "__defineSetter__", "__lookupGetter__", "__lookupSetter__"
  }

  /** `obj[key]` on an object literal with the string properties `own`:
      an own property, else an inherited method, else undefined. */
  function Lookup(own: map<string, string>, key: string): (r: JsValue)
    ensures key in own ==> r == Str(own[key])
    ensures key !in own && key !in InheritedKeys ==> r == Undefined
  {
    if key in own then Str(own[key])
    else if key in InheritedKeys then Object
    else Undefined
  }

  /** `map[type] || type || "-"`. */
  function Match(own: map<string, string>, v: JsValue): (r: JsValue)
    ensures Truthy(r)
    ensures Truthy(Lookup(own, PropertyKey(v))) ==> r == Lookup(own, PropertyKey(v))
    ensures !Truthy(Lookup(own, PropertyKey(v))) && Truthy(v) ==> r == v
    ensures !Truthy(Lookup(own, PropertyKey(v))) && !Truthy(v) ==> r == Str("-")
  {
    var found := Lookup(own, PropertyKey(v));
    if Truthy(found) then found else if Truthy(v) then v else Str("-")
  }

  const StatusMap: map<string, string> := map[
    "0" := "等待解析", "1" := "成功", "2" := "失败",
    "None" := "等待解析", "Success" := "成功", "Failure" := "失败"
  ]

  const FileTypeMap: map<string, string> := map[
    "1" := "Word", "2" := "Excel", "3" := "PPT", "4" := "PDF",
    "5" := "TXT", "6" := "Image", "7" := "Markdown", "8" := "Other",
    "Word" := "Word", "Excel" := "Excel", "PPT" := "PPT", "PDF" := "PDF",
    "TXT" := "TXT", "Image" := "Image", "Markdown" := "Markdown", "Other" := "Other"
  ]

  /** `MatchStatus`. */
  function MatchStatus(v: JsValue): (r: JsValue)
    ensures Truthy(r)
  {
    Match(StatusMap, v)
  }

  /** `MatchFileType`. */
  function MatchFileType(v: JsValue): (r: JsValue)
    ensures Truthy(r)
  {
    Match(FileTypeMap, v)
  }

  /** The label of a parse state, and the Go enum name it is keyed by. */
  function StatusLabel(s: GoFileUtils.ParseStatus): string
  {
    match s
    case NotParsed => "等待解析"
    case Parsed => "成功"
    case ParseFailed => "失败"
  }

  function StatusName(s: GoFileUtils.ParseStatus): string
  {
    match s
    case NotParsed => "None"
    case Parsed => "Success"
    case ParseFailed => "Failure"
  }

  /** Each parse state gets its label from its number and from its name. */
  lemma {:induction false} StatusLabels(s: GoFileUtils.ParseStatus)
    ensures MatchStatus(Int(GoFileUtils.ParseStatusCode(s))) == Str(StatusLabel(s))
    ensures MatchStatus(Str(StatusName(s))) == Str(StatusLabel(s))
  {
    var n := GoFileUtils.ParseStatusCode(s);
    assert IntToString(n) == [DigitChar(n)];
  }

  /** The name of a file type, which is also its label. */
  function FileTypeName(t: GoFileUtils.FileType): string
  {
    match t
    case Word => "Word"
    case Excel => "Excel"
    case PPT => "PPT"
    case PDF => "PDF"
    case TXT => "TXT"
    case Image => "Image"
    case Markdown => "Markdown"
    case Other => "Other"
  }

  /** Each file type gets its name from its number and from its name. */
  lemma {:induction false} FileTypeLabels(t: GoFileUtils.FileType)
    ensures MatchFileType(Int(GoFileUtils.FileTypeCode(t))) == Str(FileTypeName(t))
    ensures MatchFileType(Str(FileTypeName(t))) == Str(FileTypeName(t))
  {
    FileTypeLabelByCode(t);
    FileTypeLabelByName(t);
  }

  lemma {:induction false} FileTypeLabelByCode(t: GoFileUtils.FileType)
    ensures MatchFileType(Int(GoFileUtils.FileTypeCode(t))) == Str(FileTypeName(t))
  {
    var n := GoFileUtils.FileTypeCode(t);
    assert IntToString(n) == [DigitChar(n)];
  }

  lemma {:induction false} FileTypeLabelByName(t: GoFileUtils.FileType)
    ensures MatchFileType(Str(FileTypeName(t))) == Str(FileTypeName(t))
  {
  }

  /** Values with no label: a truthy one comes back unchanged, a falsy one
      as "-", and an inherited name yields the inherited method. */
  lemma {:induction false} Fallbacks()
    ensures MatchStatus(Int(7)) == Int(7)
    ensures MatchStatus(Str("01")) == Str("01")
    ensures MatchStatus(Str("")) == Str("-") && MatchStatus(Null) == Str("-") && MatchStatus(Undefined) == Str("-")
    ensures MatchStatus(Int(0)) == Str("等待解析")
    ensures MatchFileType(Str("toString")) == Object
  {
    assert IntToString(7) == "7";
    assert IntToString(0) == "0";
    assert "01" !in StatusMap;
  }
}
