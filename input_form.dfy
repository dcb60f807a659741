/**
 * The upload form: validation of a selected file (allowed extension first, then the 10 MiB
 * limit), and the parse step that either hands the text and the file on for analysis or
 * records the error and clears the selection.
 */
module InputForm {
  import opened Wrappers
  import opened FileParser

  const InvalidTypeError := "Invalid file type. Please upload a supported file."
  const TooLargeError := "File is too large. Maximum size is 10MB."

  /** The form's `allowedExtensions`, compared against the lower-cased extension. */
  const AllowedExtensions: seq<string> := ["pdf", "docx", "xlsx", "xls", "csv", "txt"]

  /** The form's `maxFileSize`: 10 MiB. */
  const MaxFileSize: nat := 10 * 1024 * 1024

  /**
   * The error `handleFileSelect` reports for a file, if any: the type check runs first, so
   * a file failing both checks gets the type error.
   */
  function SelectionError(f: Upload): (e: Option<string>)
    ensures e.None? <==> Extension(f.name) in AllowedExtensions && f.size <= MaxFileSize
    ensures e == Some(InvalidTypeError) <==> Extension(f.name) !in AllowedExtensions
    ensures e == Some(TooLargeError) <==> Extension(f.name) in AllowedExtensions && f.size > MaxFileSize
  {
    var ext := Extension(f.name);
    if ext == "" || ext !in AllowedExtensions then Some(InvalidTypeError)
    else if f.size > MaxFileSize then Some(TooLargeError)
    else None
  }

  /** The form accepts exactly the extensions the parser dispatches. */
  lemma AllowedMatchesDispatch(ext: string)
    ensures ext in AllowedExtensions <==> Dispatch(ext).Some?
  {
  }

  /** A file of exactly 10 MiB with an allowed extension is accepted; one byte more is refused. */
  lemma SizeBoundary(name: string)
    requires Extension(name) in AllowedExtensions
    ensures SelectionError(Upload(name, "", 10485760)) == None
    ensures SelectionError(Upload(name, "", 10485761)) == Some(TooLargeError)
  {
  }

  /** The form's state: the selected file, the file error shown, and whether parsing is under way. */
  class UploadForm {
    var file: Option<Upload>
    var fileError: Option<string>
    var isParsing: bool

    constructor ()
      ensures file == None && fileError == None && !isParsing
    {
      file, fileError, isParsing := None, None, false;
    }

    /**
     * `handleFileSelect`. While the analysis or a parse is running nothing changes. A null
     * selection clears the file. A refused file leaves the previous file and shows the error.
     * An accepted file is stored and its parse begins (`handleAnalysis` up to its first await),
     * and the file to parse is returned.
     */
    method SelectFile(selected: Option<Upload>, isLoading: bool) returns (toParse: Option<Upload>)
      modifies this
      ensures isLoading || old(isParsing) ==>
        toParse == None && file == old(file) && fileError == old(fileError) && isParsing == old(isParsing)
      ensures !isLoading && !old(isParsing) && selected.None? ==>
        toParse == None && file == None && fileError == None && !isParsing
      ensures !isLoading && !old(isParsing) && selected.Some? && SelectionError(selected.value).Some? ==>
        toParse == None && file == old(file) && fileError == SelectionError(selected.value) && !isParsing
      ensures !isLoading && !old(isParsing) && selected.Some? && SelectionError(selected.value).None? ==>
        toParse == selected && file == selected && fileError == None && isParsing
    {
      if isLoading || isParsing {
        return None;
      }
      fileError := None;
      if selected.None? {
        file := None;
        return None;
      }
      var f := selected.value;
      var ext := Extension(f.name);
      if ext == "" || ext !in AllowedExtensions {
        fileError := Some(InvalidTypeError);
        return None;
      }
      if f.size > MaxFileSize {
        fileError := Some(TooLargeError);
        return None;
      }
      file := Some(f);
      isParsing := true;
      fileError := None;
      toParse := Some(f);
    }

    /**
     * The rest of `handleAnalysis`: parse the file; on success return the text and the file
     * for `onAnalyze`, even when the text is empty; on failure show the parser's message and
     * clear the file. Parsing has ended either way.
     */
    method FinishParsing(selected: Upload, env: ReadEnv) returns (analyze: Option<(string, Upload)>)
      modifies this
      ensures ParseOutcome(selected.name, env).Success? ==>
        analyze == Some((ParseOutcome(selected.name, env).value, selected)) &&
        file == old(file) && fileError == old(fileError)
      ensures ParseOutcome(selected.name, env).Failure? ==>
        analyze == None && file == None && fileError == Some(ParseOutcome(selected.name, env).error)
      ensures !isParsing
    {
      var outcome := ParseFile(selected, env);
      match outcome {
        case Success(text) =>
          analyze := Some((text, selected));
        case Failure(message) =>
          fileError := Some(message);
          file := None;
          analyze := None;
      }
      isParsing := false;
    }

    /** The remove button beside the selected file: clears the file and the error. */
    method ClearSelection()
      modifies this
      ensures file == None && fileError == None && isParsing == old(isParsing)
    {
      file := None;
      fileError := None;
    }
  }
}
