/**
 * Document ingestion: choosing a parser from the file name's extension, assembling the text
 * of PDF pages and spreadsheet sheets, mapping library failures to fixed messages, and taking
 * the payload out of a data URL. The browser's FileReader and the pdf.js, mammoth and SheetJS
 * libraries are not modelled; what they would produce for a given file is the `ReadEnv` value.
 */
module FileParser {
  import opened Wrappers
  import opened Strings

  /** A file the user selected: its name, declared media type and size in bytes. */
  datatype Upload = Upload(name: string, mimeType: string, size: nat)

  /** The four text extractors a file can be dispatched to. */
  datatype Parser = PdfParser | WordParser | SpreadsheetParser | PlainTextParser

  /** A call into a foreign library: it produced a value or threw. */
  datatype Attempt<T> = Produced(value: T) | Threw

  /** A library reached through a browser global, which may not be loaded. */
  datatype Library<T> = NotLoaded | Loaded(call: Attempt<T>)

  /** One pdf.js text item: its `str`, which may be missing. */
  type TextItem = Option<string>

  /** One worksheet: its name and SheetJS's CSV rendering of it. */
  datatype Sheet = Sheet(name: string, csv: string)

  /**
   * What reading one file would produce: whether FileReader succeeds, the text it reads,
   * the pages pdf.js extracts (each a list of text items), mammoth's raw text and SheetJS's sheets.
   */
  datatype ReadEnv = ReadEnv(
    readable: bool,
    plainText: string,
    pdf: Attempt<seq<seq<TextItem>>>,
    mammoth: Library<string>,
    sheetJs: Library<seq<Sheet>>)

  const NoExtensionError := "File has no extension."
  const PdfError := "Failed to parse PDF document. It might be password-protected or corrupted."
  const MammothMissingError := "Mammoth.js library is not loaded."
  const WordError := "Failed to parse Word document."
  const SheetJsMissingError := "XLSX (SheetJS) library is not loaded."
  const ExcelError := "Failed to parse Excel document."
  const ReadError := "Failed to read or parse the file."

  function UnsupportedError(ext: string): string
  {
    "Unsupported file type: ." + ext
  }

  /**
   * `name.split('.').pop().toLowerCase()`: the lower-cased text after the last dot, or the
   * whole name when it has no dot.
   */
  function Extension(name: string): (ext: string)
    ensures |ext| <= |name|
    ensures var tail := name[|name| - |ext|..];
      ext == ToLower(tail) && '.' !in tail && (|ext| < |name| ==> name[|name| - |ext| - 1] == '.')
    ensures '.' !in name ==> ext == ToLower(name)
    ensures ext == "" <==> (name == "" || name[|name| - 1] == '.')
  {
    var fields := Split(name, '.');
    LastField(name, '.');
    ToLowerKeepsSeparator(fields[|fields| - 1], '.');
    ToLower(fields[|fields| - 1])
  }

  /** The extensions `parseFile` dispatches; every other extension is refused. */
  const SupportedExtensions: set<string> := {"pdf", "docx", "xlsx", "xls", "csv", "txt"}

  /** The `if`/`else if` chain of `parseFile`: which extractor an extension selects. */
  function Dispatch(ext: string): (p: Option<Parser>)
    ensures p == Some(PdfParser) <==> ext == "pdf"
    ensures p == Some(WordParser) <==> ext == "docx"
    ensures p == Some(SpreadsheetParser) <==> ext == "xlsx" || ext == "xls"
    ensures p == Some(PlainTextParser) <==> ext == "csv" || ext == "txt"
    ensures p.Some? <==> ext in SupportedExtensions
  {
    if ext == "pdf" then Some(PdfParser)
    else if ext == "docx" then Some(WordParser)
    else if ext == "xlsx" || ext == "xls" then Some(SpreadsheetParser)
    else if ext == "csv" || ext == "txt" then Some(PlainTextParser)
    else None
  }

  // ---------------------------------------------------------------- PDF

  /** A page's text: its items' strings (missing ones empty) joined by single spaces. */
  function PageText(items: seq<TextItem>): string
  {
    Join(seq(|items|, i requires 0 <= i < |items| => items[i].GetOr("")), " ")
  }

  /** The accumulated `fullText` before trimming: each page's text followed by a blank line. */
  function PagesText(pages: seq<seq<TextItem>>): string
  {
    if pages == [] then ""
    else PagesText(pages[..|pages| - 1]) + PageText(pages[|pages| - 1]) + "\n\n"
  }

  /** Page text assembly distributes over a split of the page list. */
  lemma {:induction false} PagesTextAppend(a: seq<seq<TextItem>>, b: seq<seq<TextItem>>)
    ensures PagesText(a + b) == PagesText(a) + PagesText(b)
  {
    if b != [] {
      var init, last := b[..|b| - 1], b[|b| - 1];
      assert (a + b)[..|a + b| - 1] == a + init;
      assert (a + b)[|a + b| - 1] == last;
      PagesTextAppend(a, init);
      calc {
        PagesText(a + b);
        PagesText(a + init) + PageText(last) + "\n\n";
        PagesText(a) + (PagesText(init) + PageText(last) + "\n\n");
        { assert b[..|b| - 1] == init; }
        PagesText(a) + PagesText(b);
      }
    } else {
      assert a + b == a;
    }
  }

  /** Pages are emitted first to last: the first page's text comes first, then a blank line, then the rest. */
  lemma PagesTextFirst(p: seq<TextItem>, rest: seq<seq<TextItem>>)
    ensures PagesText([p] + rest) == PageText(p) + "\n\n" + PagesText(rest)
  {
    PagesTextAppend([p], rest);
    assert [p][..0] == [];
  }

  /** Joining only empty strings with spaces gives only spaces. */
  lemma {:induction false} JoinOfEmptyIsBlank(parts: seq<string>)
    requires forall i :: 0 <= i < |parts| ==> parts[i] == ""
    ensures AllSpace(Join(parts, " "))
  {
    if |parts| > 1 {
      JoinOfEmptyIsBlank(parts[1..]);
      assert Join(parts, " ") == " " + Join(parts[1..], " ");
    }
  }

  /** Pages whose items carry no text, as in a scanned document, assemble to only whitespace. */
  lemma {:induction false} TextlessPagesAreBlank(pages: seq<seq<TextItem>>)
    requires forall i, j :: 0 <= i < |pages| && 0 <= j < |pages[i]| ==> pages[i][j].GetOr("") == ""
    ensures AllSpace(PagesText(pages))
  {
    if pages != [] {
      var last := pages[|pages| - 1];
      TextlessPagesAreBlank(pages[..|pages| - 1]);
      JoinOfEmptyIsBlank(seq(|last|, i requires 0 <= i < |last| => last[i].GetOr("")));
      var a, b := PagesText(pages[..|pages| - 1]), PageText(last);
      assert PagesText(pages) == a + b + "\n\n";
      assert forall i :: 0 <= i < |a + b + "\n\n"| ==>
        (a + b + "\n\n")[i] == (if i < |a| then a[i] else if i < |a| + |b| then b[i - |a|] else '\n');
    }
  }

  /** `parsePdf`'s page loop: visits pages in order, appends each page's text and a blank line, and trims. */
  method ParsePdfText(pages: seq<seq<TextItem>>) returns (text: string)
    ensures text == Trim(PagesText(pages))
    ensures pages == [] ==> text == ""
  {
    var fullText := "";
    for i := 0 to |pages|
      invariant fullText == PagesText(pages[..i])
    {
      var pageText := PageText(pages[i]);
      assert pages[..i + 1][..i] == pages[..i];
      fullText := fullText + pageText + "\n\n";
    }
    assert pages[..|pages|] == pages;
    text := Trim(fullText);
  }

  // ---------------------------------------------------------------- Spreadsheets

  /** One sheet's block: a `Sheet: <name>` header, a blank line, the CSV and a blank line. */
  function SheetBlock(s: Sheet): string
  {
    "Sheet: " + s.name + "\n\n" + s.csv + "\n\n"
  }

  /** The workbook's text: the sheets' blocks in workbook order, untrimmed. */
  function SheetsText(sheets: seq<Sheet>): string
  {
    if sheets == [] then "" else SheetsText(sheets[..|sheets| - 1]) + SheetBlock(sheets[|sheets| - 1])
  }

  /** Sheet text assembly distributes over a split of the sheet list. */
  lemma {:induction false} SheetsTextAppend(a: seq<Sheet>, b: seq<Sheet>)
    ensures SheetsText(a + b) == SheetsText(a) + SheetsText(b)
  {
    if b != [] {
      var init, last := b[..|b| - 1], b[|b| - 1];
      assert (a + b)[..|a + b| - 1] == a + init;
      assert (a + b)[|a + b| - 1] == last;
      SheetsTextAppend(a, init);
      calc {
        SheetsText(a + b);
        SheetsText(a + init) + SheetBlock(last);
        SheetsText(a) + (SheetsText(init) + SheetBlock(last));
        { assert b[..|b| - 1] == init; }
        SheetsText(a) + SheetsText(b);
      }
    } else {
      assert a + b == a;
    }
  }

  /** The first sheet's block opens the text; so a non-empty workbook's text starts with `Sheet: `. */
  lemma SheetsTextFirst(s: Sheet, rest: seq<Sheet>)
    ensures SheetsText([s] + rest) == SheetBlock(s) + SheetsText(rest)
    ensures SheetsText([s] + rest)[..7] == "Sheet: "
  {
    SheetsTextAppend([s], rest);
    assert [s][..0] == [];
  }

  /** `parseXlsx`'s sheet loop: appends one block per sheet, in order. */
  method ParseSheetsText(sheets: seq<Sheet>) returns (text: string)
    ensures text == SheetsText(sheets)
  {
    text := "";
    for i := 0 to |sheets|
      invariant text == SheetsText(sheets[..i])
    {
      var sheet := sheets[i];
      assert sheets[..i + 1][..i] == sheets[..i];
      text := text + "Sheet: " + sheet.name + "\n\n" + sheet.csv + "\n\n";
    }
    assert sheets[..|sheets|] == sheets;
  }

  // ---------------------------------------------------------------- parseFile

  /**
   * What `parseFile` resolves to: the extracted text, or the message of the error it rejects with.
   * An unusable extension fails before anything is read; a FileReader failure is not an `Error`
   * object and so becomes the generic read message; each library failure has its own message.
   */
  function ParseOutcome(name: string, env: ReadEnv): (r: Result<string, string>)
    ensures Extension(name) == "" ==> r == Failure(NoExtensionError)
    ensures Extension(name) != "" && Extension(name) !in SupportedExtensions ==>
      r == Failure(UnsupportedError(Extension(name)))
    ensures r.Success? ==> Extension(name) in SupportedExtensions && env.readable
    ensures env.readable && Dispatch(Extension(name)) == Some(PdfParser) && env.pdf.Produced? ==>
      r == Success(Trim(PagesText(env.pdf.value)))
    ensures env.readable && Dispatch(Extension(name)) == Some(WordParser) &&
            env.mammoth.Loaded? && env.mammoth.call.Produced? ==>
      r == Success(env.mammoth.call.value)
    ensures env.readable && Dispatch(Extension(name)) == Some(SpreadsheetParser) &&
            env.sheetJs.Loaded? && env.sheetJs.call.Produced? ==>
      r == Success(SheetsText(env.sheetJs.call.value))
  {
    var ext := Extension(name);
    if ext == "" then Failure(NoExtensionError)
    else
      match Dispatch(ext)
      case None => Failure(UnsupportedError(ext))
      case Some(parser) =>
        if !env.readable then Failure(ReadError)
        else
          match parser
          case PdfParser =>
            (match env.pdf
             case Produced(pages) => Success(Trim(PagesText(pages)))
             case Threw => Failure(PdfError))
          case WordParser =>
            (match env.mammoth
             case NotLoaded => Failure(MammothMissingError)
             case Loaded(Produced(text)) => Success(text)
             case Loaded(Threw) => Failure(WordError))
          case SpreadsheetParser =>
            (match env.sheetJs
             case NotLoaded => Failure(SheetJsMissingError)
             case Loaded(Produced(sheets)) => Success(SheetsText(sheets))
             case Loaded(Threw) => Failure(ExcelError))
          case PlainTextParser => Success(env.plainText)
  }

  /** A refused extension reads nothing: the outcome does not depend on the file's contents at all. */
  lemma UnsupportedReadsNothing(name: string, env1: ReadEnv, env2: ReadEnv)
    requires Extension(name) !in SupportedExtensions
    ensures ParseOutcome(name, env1) == ParseOutcome(name, env2)
    ensures ParseOutcome(name, env1).Failure?
  {
  }

  /** A name without a dot is taken whole as its extension, so `report` is an unsupported type. */
  lemma NoDotNameIsUnsupported(env: ReadEnv)
    ensures ParseOutcome("report", env) == Failure("Unsupported file type: .report")
  {
    WholeNameExtension();
    assert Dispatch("report") == None;
    assert UnsupportedError("report") == "Unsupported file type: .report";
  }

  /** `report` has no dot, so its extension is the whole name, lower-cased. */
  lemma WholeNameExtension()
    ensures Extension("report") == "report"
  {
    assert '.' !in "report";
    var lower := ToLower("report");
    assert forall i :: 0 <= i < 6 ==> lower[i] == "report"[i];
  }

  /** The extension is compared case-insensitively: `Q3.PDF` goes to the PDF extractor. */
  lemma UpperCaseExtension(env: ReadEnv)
    ensures Extension("Q3.PDF") == "pdf"
    ensures Dispatch(Extension("Q3.PDF")) == Some(PdfParser)
  {
    var name := "Q3.PDF";
    assert name[..2] == "Q3" && name[3..] == "PDF";
    SplitAtFirst(name, '.', 2);
    SplitWithoutSeparator("PDF", '.');
    assert Split(name, '.') == ["Q3", "PDF"];
    var lower := ToLower("PDF");
    assert forall i :: 0 <= i < 3 ==> lower[i] == "pdf"[i];
    assert lower == "pdf";
  }

  /**
   * Once a parser is chosen, an unreadable file gives the generic read message, and every
   * extractor failure is told apart: a failed PDF load, a missing or failing mammoth, a missing
   * or failing SheetJS each give their own message, and only that failure gives it.
   */
  lemma ExtractorFailures(name: string, env: ReadEnv)
    requires Dispatch(Extension(name)).Some?
    ensures !env.readable ==> ParseOutcome(name, env) == Failure(ReadError)
    ensures env.readable && Dispatch(Extension(name)) == Some(PdfParser) ==>
      (ParseOutcome(name, env) == Failure(PdfError) <==> env.pdf.Threw?)
    ensures env.readable && Dispatch(Extension(name)) == Some(WordParser) ==>
      (ParseOutcome(name, env) == Failure(MammothMissingError) <==> env.mammoth.NotLoaded?) &&
      (ParseOutcome(name, env) == Failure(WordError) <==> env.mammoth == Loaded(Threw))
    ensures env.readable && Dispatch(Extension(name)) == Some(SpreadsheetParser) ==>
      (ParseOutcome(name, env) == Failure(SheetJsMissingError) <==> env.sheetJs.NotLoaded?) &&
      (ParseOutcome(name, env) == Failure(ExcelError) <==> env.sheetJs == Loaded(Threw))
    ensures env.readable && Dispatch(Extension(name)) == Some(PlainTextParser) ==>
      ParseOutcome(name, env) == Success(env.plainText)
  {
    var parser := Dispatch(Extension(name)).value;
    if env.readable && parser == WordParser {
      assert MammothMissingError[0] == 'M' && WordError[0] == 'F';
    } else if env.readable && parser == SpreadsheetParser {
      assert SheetJsMissingError[0] == 'X' && ExcelError[0] == 'F';
    }
  }

  /**
   * Each extractor of a readable file succeeds exactly when its library produced a value; the
   * texts it then resolves with are stated by `ParseOutcome` itself.
   */
  lemma ExtractedTexts(name: string, env: ReadEnv)
    requires Dispatch(Extension(name)).Some? && env.readable
    ensures Dispatch(Extension(name)) == Some(PdfParser) ==>
      (ParseOutcome(name, env).Success? <==> env.pdf.Produced?)
    ensures Dispatch(Extension(name)) == Some(WordParser) ==>
      (ParseOutcome(name, env).Success? <==> env.mammoth.Loaded? && env.mammoth.call.Produced?)
    ensures Dispatch(Extension(name)) == Some(SpreadsheetParser) ==>
      (ParseOutcome(name, env).Success? <==> env.sheetJs.Loaded? && env.sheetJs.call.Produced?)
    ensures Dispatch(Extension(name)) == Some(PlainTextParser) ==> ParseOutcome(name, env).Success?
  {
  }

  /** `parseFile`: extension check, dispatch, then the chosen extractor. */
  method ParseFile(file: Upload, env: ReadEnv) returns (r: Result<string, string>)
    ensures r == ParseOutcome(file.name, env)
  {
    var ext := Extension(file.name);
    if ext == "" {
      return Failure(NoExtensionError);
    }
    var parser := Dispatch(ext);
    if parser.None? {
      return Failure(UnsupportedError(ext));
    }
    if !env.readable {
      return Failure(ReadError);
    }
    match parser.value {
      case PdfParser =>
        match env.pdf {
          case Produced(pages) =>
            var text := ParsePdfText(pages);
            r := Success(text);
          case Threw =>
            r := Failure(PdfError);
        }
      case WordParser =>
        match env.mammoth {
          case NotLoaded => r := Failure(MammothMissingError);
          case Loaded(Produced(text)) => r := Success(text);
          case Loaded(Threw) => r := Failure(WordError);
        }
      case SpreadsheetParser =>
        match env.sheetJs {
          case NotLoaded => r := Failure(SheetJsMissingError);
          case Loaded(Produced(sheets)) =>
            var text := ParseSheetsText(sheets);
            r := Success(text);
          case Loaded(Threw) => r := Failure(ExcelError);
        }
      case PlainTextParser =>
        r := Success(env.plainText);
    }
  }

  // ---------------------------------------------------------------- fileToBase64

  /** What `readAsDataURL` gives: the data URL, or a rejection. */
  datatype DataUrlRead = DataUrl(url: string) | ReadRejected

  /**
   * `url.split(',')[1]`: the second comma-separated field, which JavaScript leaves
   * `undefined` when the URL holds no comma.
   */
  function DataUrlPayload(url: string): (r: Option<string>)
    ensures r.Some? <==> ',' in url
    ensures r.Some? ==> ',' !in r.value
    ensures r.Some? ==> forall i :: 0 <= i < |url| && url[i] == ',' && ',' !in url[..i] ==>
      r.value <= url[i + 1..] && (i + 1 + |r.value| == |url| || url[i + 1 + |r.value|] == ',')
  {
    var fields := Split(url, ',');
    LastField(url, ',');
    if |fields| > 1 then
      PayloadAfterFirstComma(url);
      Some(fields[1])
    else None
  }

  /** The second field runs from the first comma to the next comma or to the end. */
  lemma PayloadAfterFirstComma(url: string)
    requires |Split(url, ',')| > 1
    ensures var p := Split(url, ',')[1];
      forall i :: 0 <= i < |url| && url[i] == ',' && ',' !in url[..i] ==>
        p <= url[i + 1..] && (i + 1 + |p| == |url| || url[i + 1 + |p|] == ',')
  {
    forall i | 0 <= i < |url| && url[i] == ',' && ',' !in url[..i]
      ensures Split(url, ',')[1] <= url[i + 1..]
      ensures i + 1 + |Split(url, ',')[1]| == |url| || url[i + 1 + |Split(url, ',')[1]|] == ','
    {
      SplitAtFirst(url, ',', i);
      FirstField(url[i + 1..], ',');
    }
  }

  /**
   * For a data URL with one comma (the `data:<type>;base64,<payload>` form) the payload is
   * exactly the text after the comma.
   */
  lemma {:induction false} PayloadAfterOnlyComma(url: string, i: nat)
    requires i < |url| && url[i] == ',' && ',' !in url[..i] && ',' !in url[i + 1..]
    ensures DataUrlPayload(url) == Some(url[i + 1..])
  {
    SplitAtFirst(url, ',', i);
    SplitWithoutSeparator(url[i + 1..], ',');
  }
}
