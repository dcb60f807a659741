/**
 * The application root: which input an analysis sends, and the state transitions of starting
 * and finishing an analysis, opening a saved report and sending a chat message. Each awaited
 * handler is one atomic step; the model provider, FileReader and `JSON.stringify` are parameters.
 */
module App {
  import opened Wrappers
  import opened Strings
  import opened Types
  import opened FileParser
  import opened GeminiService

  const Greeting := "Hello! I'm Marve, your AI financial assistant powered by Generational Wealth Analytics. Please contact our customer service at +263710419664 for more information and custom financial insights<br/><br/>You can ask me about general financial topics, or upload a document for specific analysis"
  const NotEnoughTextError := "Could not extract enough text from the file for analysis."
  const UnexpectedError := "An unexpected error occurred."
  const ChatFallbackReply := "Sorry, I encountered an error."
  const DefaultMimeType := "application/pdf"
  const CompleteOpening := "Analysis complete for the period **"
  const CompleteClosing := "**. The performance dashboard is now available. Feel free to ask any questions about the data presented."
  const FailedOpening := "I'm sorry, but I was unable to complete the analysis. Please try again with a different file. \n\n**Error:** "
  const SavedOpening := "Now viewing saved report: **"
  const SavedClosing := "**. How can I help you analyze this data?"

  /** What `handleAnalyze` sends: the text, the original file as inline data, or nothing. */
  datatype InputChoice = UseText | UseFile(file: Upload) | NoUsableInput

  /**
   * The text is used only when its trimmed `length`, in UTF-16 code units, exceeds 100;
   * otherwise the file, if any.
   */
  function ChooseInput(text: string, file: Option<Upload>): (c: InputChoice)
    ensures c == UseText <==> Utf16Length(Trim(text)) > 100
    ensures c.UseFile? <==> Utf16Length(Trim(text)) <= 100 && file.Some?
    ensures c.UseFile? ==> c.file == file.value
    ensures |Trim(text)| > 100 ==> c == UseText
  {
    if Utf16Length(Trim(text)) > 100 then UseText
    else if file.Some? then UseFile(file.value)
    else NoUsableInput
  }

  /** Text that is only whitespace is never sent, however long it is. */
  lemma BlankTextIsNeverSent(text: string, file: Option<Upload>)
    requires AllSpace(text)
    ensures ChooseInput(text, file) != UseText
  {
    TrimEmptyIff(text);
  }

  /**
   * `length` counts UTF-16 code units, so 51 characters from outside the Basic Multilingual
   * Plane (emoji, say) already pass the threshold.
   */
  lemma AstralTextCountsTwice(text: string, file: Option<Upload>)
    requires |text| > 50 && forall k :: 0 <= k < |text| ==> text[k] as int >= 0x1_0000
    ensures ChooseInput(text, file) == UseText
  {
    assert !IsSpace(text[0]) && !IsSpace(text[|text| - 1]);
    assert TrimStart(text) == text;
    assert TrimEnd(text) == text;
    Utf16LengthOfAstral(text);
  }

  /** The file's declared media type, or PDF when the browser reports none (`type || 'application/pdf'`). */
  function MimeOrDefault(mimeType: string): (m: string)
    ensures m != ""
    ensures mimeType != "" ==> m == mimeType
  {
    if mimeType == "" then DefaultMimeType else mimeType
  }

  /**
   * The analysis input: the untrimmed text, or the file's data URL payload with its media type;
   * a FileReader rejection is not an `Error`, and a missing file is the not-enough-text error.
   */
  function AnalysisInputFor(text: string, file: Option<Upload>, read: DataUrlRead): (r: Result<AnalysisInput, Thrown>)
    ensures ChooseInput(text, file) == UseText ==> r == Success(StringInput(text))
    ensures ChooseInput(text, file).UseFile? && read.DataUrl? ==>
      r == Success(PartInput(InlineDataPart(MimeOrDefault(file.value.mimeType), DataUrlPayload(read.url))))
    ensures ChooseInput(text, file).UseFile? && read.ReadRejected? ==> r == Failure(NonError)
    ensures ChooseInput(text, file) == NoUsableInput ==> r == Failure(ErrorObject(NotEnoughTextError))
  {
    match ChooseInput(text, file)
    case UseText => Success(StringInput(text))
    case UseFile(f) =>
      (match read
       case DataUrl(url) => Success(PartInput(InlineDataPart(MimeOrDefault(f.mimeType), DataUrlPayload(url))))
       case ReadRejected => Failure(NonError))
    case NoUsableInput => Failure(ErrorObject(NotEnoughTextError))
  }

  /** The message `handleAnalyze` shows for what was thrown. */
  function ThrownMessage(t: Thrown): string
  {
    match t
    case ErrorObject(m) => m
    case NonError => UnexpectedError
  }

  /** The outcome of one analysis: the report, or the message of the error that ended it. */
  function AnalysisOutcome(text: string, file: Option<Upload>, read: DataUrlRead, llm: ReportRequest -> ReportAnswer): (r: Result<FinancialPerformanceData, string>)
    ensures ChooseInput(text, file) == NoUsableInput ==> r == Failure(NotEnoughTextError)
    ensures r.Success? <==>
      AnalysisInputFor(text, file, read).Success? &&
      GenerateReport(AnalysisInputFor(text, file, read).value, llm).Success?
    ensures r.Success? ==>
      GenerateReport(AnalysisInputFor(text, file, read).value, llm) == Success(r.value)
    ensures AnalysisInputFor(text, file, read).Failure? ==>
      r == Failure(ThrownMessage(AnalysisInputFor(text, file, read).error))
    ensures (AnalysisInputFor(text, file, read).Success? &&
             GenerateReport(AnalysisInputFor(text, file, read).value, llm).Failure?) ==>
      r == Failure(ThrownMessage(GenerateReport(AnalysisInputFor(text, file, read).value, llm).error))
  {
    match AnalysisInputFor(text, file, read)
    case Failure(t) => Failure(ThrownMessage(t))
    case Success(input) =>
      (match GenerateReport(input, llm)
       case Success(report) => Success(report)
       case Failure(t) => Failure(ThrownMessage(t)))
  }

  /** A file the browser could not read ends the analysis with "An unexpected error occurred.". */
  lemma UnreadableFileMessage(text: string, file: Option<Upload>, llm: ReportRequest -> ReportAnswer)
    requires ChooseInput(text, file).UseFile?
    ensures AnalysisOutcome(text, file, ReadRejected, llm) == Failure(UnexpectedError)
  {
    assert AnalysisInputFor(text, file, ReadRejected) == Failure(NonError);
  }

  /** A failed or unparsable report call ends the analysis with "Failed to generate analyst report.". */
  lemma ReportFailedMessage(text: string, file: Option<Upload>, read: DataUrlRead, llm: ReportRequest -> ReportAnswer)
    requires AnalysisInputFor(text, file, read).Success?
    requires var answer := llm(ReportRequestFor(AnalysisInputFor(text, file, read).value));
      answer == RequestFailed || answer == Answered(None)
    ensures AnalysisOutcome(text, file, read, llm) == Failure(ReportError)
  {
    var input := AnalysisInputFor(text, file, read).value;
    assert GenerateReport(input, llm) == Failure(ErrorObject(ReportError));
  }

  /**
   * A scanned PDF whose pages carry no text parses to the empty string, so the analysis sends
   * the file itself, as PDF when the browser gives no media type.
   */
  lemma TextlessPdfFallsBackToFile(f: Upload, env: ReadEnv, url: string)
    requires Extension(f.name) == "pdf" && env.readable && env.pdf.Produced?
    requires forall i, j :: 0 <= i < |env.pdf.value| && 0 <= j < |env.pdf.value[i]| ==> env.pdf.value[i][j].GetOr("") == ""
    ensures ParseOutcome(f.name, env).Success?
    ensures AnalysisInputFor(ParseOutcome(f.name, env).value, Some(f), DataUrl(url)) ==
      Success(PartInput(InlineDataPart(MimeOrDefault(f.mimeType), DataUrlPayload(url))))
  {
    var raw := PagesText(env.pdf.value);
    TextlessPagesAreBlank(env.pdf.value);
    TrimEmptyIff(raw);
    assert ParseOutcome(f.name, env) == Success(Trim(raw));
    assert Trim(Trim(raw)) == [];
  }

  function AnalysisCompleteMessage(subtitle: string): (m: ChatMessage)
    ensures m.role == Model
    ensures |m.content| >= |CompleteOpening| + |subtitle| && m.content[|CompleteOpening|..|CompleteOpening| + |subtitle|] == subtitle
    ensures m.content[..|CompleteOpening|] == CompleteOpening && m.content[|CompleteOpening| + |subtitle|..] == CompleteClosing
  {
    ChatMessage(Model, CompleteOpening + subtitle + CompleteClosing)
  }

  function AnalysisFailedMessage(error: string): (m: ChatMessage)
    ensures m.role == Model
    ensures |m.content| >= |FailedOpening| + |error| && m.content[|FailedOpening|..|FailedOpening| + |error|] == error
    ensures m.content[|FailedOpening|..] == error
    ensures m.content[..|FailedOpening|] == FailedOpening
  {
    ChatMessage(Model, FailedOpening + error)
  }

  function SavedReportMessage(title: string): (m: ChatMessage)
    ensures m.role == Model
    ensures |m.content| >= |SavedOpening| + |title| && m.content[|SavedOpening|..|SavedOpening| + |title|] == title
    ensures m.content[..|SavedOpening|] == SavedOpening && m.content[|SavedOpening| + |title|..] == SavedClosing
  {
    ChatMessage(Model, SavedOpening + title + SavedClosing)
  }

  /** The model message appended after a send: the reply, `Error: <message>`, or the fixed apology. */
  function ReplyMessage(reply: Result<string, Thrown>): (m: ChatMessage)
    ensures m.role == Model
    ensures reply.Success? ==> m.content == reply.value
    ensures reply.Failure? && reply.error.ErrorObject? ==> m.content == "Error: " + reply.error.message
    ensures reply == Failure(NonError) ==> m.content == ChatFallbackReply
  {
    match reply
    case Success(text) => ChatMessage(Model, text)
    case Failure(ErrorObject(m)) => ChatMessage(Model, "Error: " + m)
    case Failure(NonError) => ChatMessage(Model, ChatFallbackReply)
  }

  /**
   * The history `handleSendMessage` passes already ends with the new user message, and the chat
   * request appends that message once more: its last two turns are the same user turn.
   */
  lemma SentMessageAppearsTwice(history: seq<ChatMessage>, message: string)
    ensures var c := ChatContents(history + [ChatMessage(User, message)], message);
      |c| == |history| + 2 && c[|history|] == c[|history| + 1] == Content(User, message)
  {
  }

  /** The root component's state. */
  class AppState {
    var activeView: View
    var dashboardData: Option<FinancialPerformanceData>
    var isLoading: bool
    var error: Option<string>
    var chatHistory: seq<ChatMessage>
    var isChatLoading: bool

    /** The initial state: the upload view, no report, and the greeting as the only message. */
    constructor ()
      ensures activeView == UploadTab && dashboardData == None && !isLoading && error == None
      ensures chatHistory == [ChatMessage(Model, Greeting)] && !isChatLoading
    {
      activeView, dashboardData, isLoading, error := UploadTab, None, false, None;
      chatHistory, isChatLoading := [ChatMessage(Model, Greeting)], false;
    }

    /** The synchronous start of `handleAnalyze`: loading, and no error, report or chat history. */
    method BeginAnalysis()
      modifies this
      ensures isLoading && error == None && dashboardData == None && chatHistory == []
      ensures activeView == old(activeView) && isChatLoading == old(isChatLoading)
    {
      isLoading := true;
      error := None;
      dashboardData := None;
      chatHistory := [];
    }

    /**
     * The rest of `handleAnalyze`: on success the report is shown on the dashboard with one
     * message quoting its subtitle; on failure the error is shown on the upload view with one
     * message quoting it. Loading has ended either way.
     */
    method FinishAnalysis(text: string, file: Option<Upload>, read: DataUrlRead, llm: ReportRequest -> ReportAnswer)
      modifies this
      ensures AnalysisOutcome(text, file, read, llm).Success? ==>
        var report := AnalysisOutcome(text, file, read, llm).value;
        dashboardData == Some(report) && activeView == DashboardTab && error == old(error) &&
        chatHistory == [AnalysisCompleteMessage(report.subtitle)]
      ensures AnalysisOutcome(text, file, read, llm).Failure? ==>
        var message := AnalysisOutcome(text, file, read, llm).error;
        dashboardData == old(dashboardData) && activeView == UploadTab && error == Some(message) &&
        chatHistory == [AnalysisFailedMessage(message)]
      ensures !isLoading && isChatLoading == old(isChatLoading)
    {
      var outcome := AnalysisOutcome(text, file, read, llm);
      Conclude(outcome);
    }

    /** The updates after the awaited analysis, for a given outcome. */
    method Conclude(outcome: Result<FinancialPerformanceData, string>)
      modifies this
      ensures outcome.Success? ==>
        dashboardData == Some(outcome.value) && activeView == DashboardTab && error == old(error) &&
        chatHistory == [AnalysisCompleteMessage(outcome.value.subtitle)]
      ensures outcome.Failure? ==>
        dashboardData == old(dashboardData) && activeView == UploadTab && error == Some(outcome.error) &&
        chatHistory == [AnalysisFailedMessage(outcome.error)]
      ensures !isLoading && isChatLoading == old(isChatLoading)
    {
      match outcome {
        case Success(report) =>
          dashboardData := Some(report);
          activeView := DashboardTab;
          chatHistory := [AnalysisCompleteMessage(report.subtitle)];
        case Failure(message) =>
          error := Some(message);
          activeView := UploadTab;
          chatHistory := [AnalysisFailedMessage(message)];
      }
      isLoading := false;
    }

    /** `handleAnalyze` as one step: the resets, then the outcome. */
    method Analyze(text: string, file: Option<Upload>, read: DataUrlRead, llm: ReportRequest -> ReportAnswer)
      modifies this
      ensures var outcome := AnalysisOutcome(text, file, read, llm);
        (outcome.Success? ==>
          dashboardData == Some(outcome.value) && activeView == DashboardTab && error == None &&
          chatHistory == [AnalysisCompleteMessage(outcome.value.subtitle)]) &&
        (outcome.Failure? ==>
          dashboardData == None && activeView == UploadTab && error == Some(outcome.error) &&
          chatHistory == [AnalysisFailedMessage(outcome.error)])
      ensures !isLoading && isChatLoading == old(isChatLoading)
    {
      BeginAnalysis();
      FinishAnalysis(text, file, read, llm);
    }

    /** `handleSelectReport`: show the saved report and restart the chat with one message naming it. */
    method SelectReport(report: FinancialPerformanceData)
      modifies this
      ensures dashboardData == Some(report) && activeView == DashboardTab
      ensures chatHistory == [SavedReportMessage(report.title)]
      ensures isLoading == old(isLoading) && error == old(error) && isChatLoading == old(isChatLoading)
    {
      dashboardData := Some(report);
      activeView := DashboardTab;
      chatHistory := [SavedReportMessage(report.title)];
    }

    /**
     * `handleSendMessage`: a blank message changes nothing; any other appends the user message
     * and then exactly one model message, the reply or the error text.
     */
    method SendMessage(message: string, json: FinancialPerformanceData -> string, llm: ChatRequest -> ChatAnswer)
      modifies this
      ensures AllSpace(message) ==> chatHistory == old(chatHistory) && isChatLoading == old(isChatLoading)
      ensures !AllSpace(message) ==>
        var sent := old(chatHistory) + [ChatMessage(User, message)];
        chatHistory == sent + [ReplyMessage(ChatReply(old(dashboardData), sent, message, json, llm))] &&
        !isChatLoading
      ensures activeView == old(activeView) && dashboardData == old(dashboardData)
      ensures isLoading == old(isLoading) && error == old(error)
    {
      // `!message.trim()`: by `TrimEmptyIff`, the message trims to nothing exactly when it is all whitespace
      if AllSpace(message) {
        return;
      }
      var reply := ChatReply(dashboardData, chatHistory + [ChatMessage(User, message)], message, json, llm);
      RecordExchange(message, reply);
    }

    /**
     * The updates of a non-blank send around the awaited reply: the user message, the loading
     * flag while waiting, then the model message derived from the reply.
     */
    method RecordExchange(message: string, reply: Result<string, Thrown>)
      modifies this
      ensures chatHistory == old(chatHistory) + [ChatMessage(User, message), ReplyMessage(reply)]
      ensures !isChatLoading
      ensures activeView == old(activeView) && dashboardData == old(dashboardData)
      ensures isLoading == old(isLoading) && error == old(error)
    {
      chatHistory := chatHistory + [ChatMessage(User, message)];
      isChatLoading := true;
      chatHistory := chatHistory + [ReplyMessage(reply)];
      isChatLoading := false;
    }
  }
}
