/**
 * The Go backend's file-type table: a suffix, dot included, is lower-cased
 * and looked up; the file types and parse states are the integer enums of
 * the Go models.
 */
module GoFileUtils {
  import opened Text
  import KnowledgeBaseService
  import Store

  /** `models.FileType`, numbered from 1 in declaration order. */
  datatype FileType = Word | Excel | PPT | PDF | TXT | Image | Markdown | Other

  function FileTypeCode(t: FileType): (r: int)
    ensures 1 <= r <= 8
  {
    match t
    case Word => 1
    case Excel => 2
    case PPT => 3
    case PDF => 4
    case TXT => 5
    case Image => 6
    case Markdown => 7
    case Other => 8
  }

  /** Distinct types have distinct codes. */
  lemma {:induction false} FileTypeCodeInjective(a: FileType, b: FileType)
    ensures FileTypeCode(a) == FileTypeCode(b) ==> a == b
  {
  }

  /** `models.ParseStatus`, numbered from 0. */
  datatype ParseStatus = NotParsed | Parsed | ParseFailed

  function ParseStatusCode(s: ParseStatus): (r: int)
    ensures 0 <= r <= 2
  {
    match s
    case NotParsed => 0
    case Parsed => 1
    case ParseFailed => 2
  }

  lemma {:induction false} ParseStatusCodeInjective(a: ParseStatus, b: ParseStatus)
    ensures ParseStatusCode(a) == ParseStatusCode(b) ==> a == b
  {
  }

  /** The lower-case suffixes, with their dot, of each type. */
  function Suffixes(t: FileType): set<string>
  {
    match t
    case Word => {".doc", ".docx"}
    case Excel => {".xls", ".xlsx"}
    case PPT => {".ppt", ".pptx"}
    case PDF => {".pdf"}
    case TXT => {".txt"}
    case Image => {".jpg", ".jpeg", ".png", ".gif", ".svg"}
    case Markdown => {".md"}
    case Other => {}
  }

  /** The `switch` of `GetFileTypeBySuffix` on the lower-cased suffix. */
  function LowerSuffixType(ext: string): (r: FileType)
    ensures r != Other ==> ext in Suffixes(r)
    ensures r == Other <==> forall t: FileType :: ext !in Suffixes(t)
  {
    if ext == ".doc" || ext == ".docx" then Word
    else if ext == ".xls" || ext == ".xlsx" then Excel
    else if ext == ".ppt" || ext == ".pptx" then PPT
    else if ext == ".pdf" then PDF
    else if ext == ".txt" then TXT
    else if ext in {".jpg", ".jpeg", ".png", ".gif", ".svg"} then Image
    else if ext == ".md" then Markdown
    else Other
  }

  /** `GetFileTypeBySuffix`. */
  function GetFileTypeBySuffix(suffix: string): (r: FileType)
    ensures r != Other ==> ToLower(suffix) in Suffixes(r)
    ensures r == Other <==> forall t: FileType :: ToLower(suffix) !in Suffixes(t)
  {
    LowerSuffixType(ToLower(suffix))
  }

  /** The tables are disjoint: a suffix in a type's table gives that type. */
  lemma {:induction false} SuffixGivesItsType(suffix: string, t: FileType)
    requires ToLower(suffix) in Suffixes(t)
    ensures GetFileTypeBySuffix(suffix) == t
  {
    LowerSuffixGivesItsType(ToLower(suffix), t);
  }

  lemma {:induction false} LowerSuffixGivesItsType(s: string, t: FileType)
    requires s in Suffixes(t)
    ensures LowerSuffixType(s) == t
  {
    match t
    case Word => assert s == ".doc" || s == ".docx";
    case Excel => assert s == ".xls" || s == ".xlsx";
    case PPT => assert s == ".ppt" || s == ".pptx";
    case PDF => assert s == ".pdf";
    case TXT => assert s == ".txt";
    case Image => assert s in {".jpg", ".jpeg", ".png", ".gif", ".svg"};
    case Markdown => assert s == ".md";
    case Other =>
  }

  /** The case of the suffix does not matter. */
  lemma {:induction false} SuffixCaseIgnored(suffix: string)
    ensures GetFileTypeBySuffix(ToLower(suffix)) == GetFileTypeBySuffix(suffix)
  {
    ToLowerIdempotent(suffix);
  }

  /** Every suffix of the tables starts with a dot and is at most five
      characters long. */
  lemma {:induction false} SuffixShape(ext: string)
    requires |ext| == 0 || ext[0] != '.' || |ext| > 5
    ensures LowerSuffixType(ext) == Other
  {
    forall t: FileType, x | x in Suffixes(t)
      ensures x[0] == '.' && |x| <= 5
    {
    }
  }

  /** The dot is part of the key: a bare extension is Other, and so is
      the long Markdown suffix. */
  lemma {:induction false} DotRequired()
    ensures GetFileTypeBySuffix("pdf") == Other
    ensures GetFileTypeBySuffix(".markdown") == Other
    ensures GetFileTypeBySuffix(".PDF") == PDF
  {
    NoDotIsOther("pdf");
    TooLongIsOther(".markdown");
    UpperPdf();
  }

  lemma {:induction false} UpperPdf()
    ensures GetFileTypeBySuffix(".PDF") == PDF
  {
    var s := ToLower(".PDF");
    assert s[0] == '.' && s[1] == 'p' && s[2] == 'd' && s[3] == 'f';
    assert s == ".pdf";
    SuffixGivesItsType(".PDF", PDF);
  }

  lemma {:induction false} NoDotIsOther(suffix: string)
    requires |suffix| == 0 || suffix[0] != '.'
    ensures GetFileTypeBySuffix(suffix) == Other
  {
    SuffixShape(ToLower(suffix));
  }

  lemma {:induction false} TooLongIsOther(suffix: string)
    requires |suffix| > 5
    ensures GetFileTypeBySuffix(suffix) == Other
  {
    SuffixShape(ToLower(suffix));
  }

  /** The corresponding type of the Java backend. */
  function JavaType(t: FileType): Store.FileType
  {
    match t
    case Word => Store.Word
    case Excel => Store.Excel
    case PPT => Store.PPT
    case PDF => Store.PDF
    case TXT => Store.TXT
    case Image => Store.Image
    case Markdown => Store.Markdown
    case Other => Store.Other
  }

  lemma {:induction false} LowerDot(s: string)
    ensures ToLower("." + s) == "." + ToLower(s)
  {
    assert ("." + s)[1..] == s;
  }

  /** Putting a dot in front is injective. */
  lemma {:induction false} DotInjective(l: string)
    ensures forall x: string :: "." + l == "." + x <==> l == x
  {
    forall x: string | "." + l == "." + x
      ensures l == x
    {
      assert ("." + l)[1..] == l && ("." + x)[1..] == x;
    }
  }

  /** The Go table is the Java table with a dot in front, except for
      `markdown` and `bmp` (Java only) and `svg` (Go only). */
  lemma {:induction false} LowerTablesAgree(l: string)
    requires l !in {"markdown", "bmp", "svg"}
    ensures JavaType(LowerSuffixType("." + l)) == KnowledgeBaseService.LowerSuffixType(l)
  {
    DotInjective(l);
    assert ".doc" == "." + "doc" && ".docx" == "." + "docx";
    assert ".xls" == "." + "xls" && ".xlsx" == "." + "xlsx";
    assert ".ppt" == "." + "ppt" && ".pptx" == "." + "pptx";
    assert ".pdf" == "." + "pdf" && ".txt" == "." + "txt" && ".md" == "." + "md";
    assert ".jpg" == "." + "jpg" && ".jpeg" == "." + "jpeg" && ".png" == "." + "png";
    assert ".gif" == "." + "gif" && ".svg" == "." + "svg";
  }

  /** The Java table takes the suffix without its dot; the two tables agree
      on every suffix but `markdown` and `bmp` (Java only) and `svg` (Go
      only). */
  lemma {:induction false} TablesAgree(s: string)
    requires ToLower(s) !in {"markdown", "bmp", "svg"}
    ensures JavaType(GetFileTypeBySuffix("." + s)) == KnowledgeBaseService.DetermineFileType(s)
  {
    LowerDot(s);
    LowerTablesAgree(ToLower(s));
  }

  /** Where the tables differ. */
  lemma {:induction false} TablesDiffer()
    ensures GetFileTypeBySuffix(".svg") == Image && KnowledgeBaseService.DetermineFileType("svg") == Store.Other
    ensures GetFileTypeBySuffix(".bmp") == Other && KnowledgeBaseService.DetermineFileType("bmp") == Store.Image
    ensures GetFileTypeBySuffix(".markdown") == Other && KnowledgeBaseService.DetermineFileType("markdown") == Store.Markdown
  {
    SvgDiffers();
    BmpDiffers();
    MarkdownDiffers();
  }

  lemma {:induction false} SvgDiffers()
    ensures GetFileTypeBySuffix(".svg") == Image && KnowledgeBaseService.DetermineFileType("svg") == Store.Other
  {
    LowerAlready(".svg");
    SuffixGivesItsType(".svg", Image);
    LowerAlready("svg");
    assert "svg"[0] == 's';
  }

  lemma {:induction false} BmpDiffers()
    ensures GetFileTypeBySuffix(".bmp") == Other && KnowledgeBaseService.DetermineFileType("bmp") == Store.Image
  {
    LowerAlready(".bmp");
    assert ".bmp"[1] == 'b';
    LowerAlready("bmp");
    KnowledgeBaseService.DetermineFileTypeExact("bmp", Store.Image);
  }

  lemma {:induction false} MarkdownDiffers()
    ensures GetFileTypeBySuffix(".markdown") == Other && KnowledgeBaseService.DetermineFileType("markdown") == Store.Markdown
  {
    LowerAlready(".markdown");
    SuffixShape(".markdown");
    LowerAlready("markdown");
    KnowledgeBaseService.DetermineFileTypeExact("markdown", Store.Markdown);
  }
}
