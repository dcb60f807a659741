/**
 * The requests sent to the language model: the single-shot, schema-constrained report request
 * and the multi-turn chat request, and how their answers and failures are turned into results.
 * The provider itself is a function from the request to its answer.
 */
module GeminiService {
  import opened Wrappers
  import opened Types

  /** A thrown JavaScript value: an `Error` object with its message, or anything else. */
  datatype Thrown = ErrorObject(message: string) | NonError

  /** A content part of a request: text, or inline file data (whose payload may be `undefined`). */
  datatype Part = TextPart(text: string) | InlineDataPart(mimeType: string, data: Option<string>)

  /** The argument of `generatePerformanceData`: a string or a ready-made part. */
  datatype AnalysisInput = StringInput(text: string) | PartInput(part: Part)

  /** The fixed analyst instruction, byte for byte (the template literal's newlines and indentation included). */
  const AnalystInstruction: string :=
    "\n      You are a world-class financial analyst. Analyze the provided financial document and generate a structured Analyst Report.\n" +
    "      \n" +
    "      Calculations Required:\n" +
    "      1. Dividend Yield: Annual Dividend per Share / Current Share Price.\n" +
    "      2. Earnings Per Share (EPS): (Net Income - Preferred Dividends) / Average Outstanding Shares.\n" +
    "      3. Price-Earnings (P/E) Ratio: Market Price per Share / Earnings per Share.\n" +
    "      \n" +
    "      Extract or estimate these values with high precision. If values are missing, use industry averages for that sector and denote appropriately.\n" +
    "    "

  const ContextHeader := "Financial Data Context:\n---\n"
  const ContextFooter := "\n---"

  /** The input part: a string is framed as a data context, a part is passed through unchanged. */
  function InputPart(input: AnalysisInput): (p: Part)
    ensures input.PartInput? ==> p == input.part
    ensures input.StringInput? ==> p.TextPart?
  {
    match input
    case StringInput(s) => TextPart(ContextHeader + s + ContextFooter)
    case PartInput(part) => part
  }

  /** The inverse of the framing: the text between the context header and footer, if both are there. */
  function UnwrapContext(t: string): (r: Option<string>)
    ensures r.Some? ==> t == ContextHeader + r.value + ContextFooter
  {
    var h, f := |ContextHeader|, |ContextFooter|;
    if |t| >= h + f && t[..h] == ContextHeader && t[|t| - f..] == ContextFooter then
      assert t == t[..h] + t[h..|t| - f] + t[|t| - f..];
      Some(t[h..|t| - f])
    else None
  }

  /** Framing a string input loses nothing: unwrapping the part's text gives the input back. */
  lemma FramingRoundTrip(s: string)
    ensures UnwrapContext(InputPart(StringInput(s)).text) == Some(s)
  {
    var t := ContextHeader + s + ContextFooter;
    var h, f := |ContextHeader|, |ContextFooter|;
    assert t[..h] == ContextHeader;
    assert t[|t| - f..] == ContextFooter;
    assert t[h..|t| - f] == s;
  }

  // ---------------------------------------------------------------- response schema

  /** An object node of the response schema: its property names and the required ones. */
  datatype SchemaObject = SchemaObject(properties: seq<string>, required: seq<string>)

  const ReportSchema := SchemaObject(
    ["title", "subtitle", "asOfDate", "keyMetrics", "quality", "financials", "financialRatios",
     "pros", "cons", "valuation", "dcfAnalysis", "valuationRatios", "summary"],
    ["title", "subtitle", "asOfDate", "keyMetrics", "quality", "financials", "financialRatios",
     "pros", "cons", "valuation", "dcfAnalysis", "valuationRatios", "summary"])

  const ValuationSchema := SchemaObject(
    ["fcfScenario1", "fcfScenario2", "achievability", "fairValue", "undervaluationPercent"],
    ["achievability", "fairValue", "undervaluationPercent"])

  function OptionalFields(o: SchemaObject): set<string>
  {
    set p | p in o.properties && p !in o.required
  }

  /**
   * Every top-level key of the report is required; in the valuation block only the two
   * free-cash-flow scenarios may be left out.
   */
  lemma SchemaRequirements()
    ensures |ReportSchema.required| == 13 && OptionalFields(ReportSchema) == {}
    ensures OptionalFields(ValuationSchema) == {"fcfScenario1", "fcfScenario2"}
  {
    assert forall p :: p in ReportSchema.properties ==> p in ReportSchema.required;
    assert "fcfScenario1" in OptionalFields(ValuationSchema);
    assert "fcfScenario2" in OptionalFields(ValuationSchema);
  }

  // ---------------------------------------------------------------- report request

  /** What the report call sends: its parts in order, the JSON response type and the schema. */
  datatype ReportRequest = ReportRequest(parts: seq<Part>, responseMimeType: string, schema: SchemaObject)

  /** How the report call ended: creating the client threw, the call failed, or it answered with text that did or did not parse as JSON. */
  datatype ReportAnswer = ClientThrew(thrown: Thrown) | RequestFailed | Answered(parsed: Option<FinancialPerformanceData>)

  const ReportError := "Failed to generate analyst report."

  function ReportRequestFor(input: AnalysisInput): (r: ReportRequest)
    ensures r.parts == [TextPart(AnalystInstruction), InputPart(input)]
    ensures r.responseMimeType == "application/json" && r.schema == ReportSchema
  {
    ReportRequest([TextPart(AnalystInstruction), InputPart(input)], "application/json", ReportSchema)
  }

  /**
   * `generatePerformanceData`: whatever parses is returned as the report without any further
   * check; a failed call or unparsable text becomes the fixed report error.
   */
  function GenerateReport(input: AnalysisInput, llm: ReportRequest -> ReportAnswer): (r: Result<FinancialPerformanceData, Thrown>)
    ensures var answer := llm(ReportRequestFor(input));
      (r.Success? <==> answer.Answered? && answer.parsed.Some?) &&
      (r.Success? ==> r.value == answer.parsed.value) &&
      (answer.ClientThrew? ==> r == Failure(answer.thrown)) &&
      (answer.RequestFailed? || answer == Answered(None) ==> r == Failure(ErrorObject(ReportError)))
  {
    match llm(ReportRequestFor(input))
    case ClientThrew(thrown) => Failure(thrown)
    case RequestFailed => Failure(ErrorObject(ReportError))
    case Answered(None) => Failure(ErrorObject(ReportError))
    case Answered(Some(report)) => Success(report)
  }

  // ---------------------------------------------------------------- chat request

  /** One turn of the chat request. */
  datatype Content = Content(role: Role, text: string)

  datatype ChatRequest = ChatRequest(systemInstruction: string, contents: seq<Content>)

  datatype ChatAnswer = ChatClientThrew(thrown: Thrown) | ChatRequestFailed | Replied(text: string)

  const Persona := "You are 'Marve', a professional financial analyst."
  const EmptyReplyPlaceholder := "No response generated."
  const ChatError := "Chat error."

  /** The chat system instruction: the persona, then the report's JSON when a report is active. */
  function SystemInstruction(report: Option<FinancialPerformanceData>, json: FinancialPerformanceData -> string): (s: string)
    ensures |s| >= |Persona| && s[..|Persona|] == Persona
    ensures report.None? ==> s == Persona
    ensures report.Some? ==>
      s[|Persona|..] == " You are currently discussing this report: " + json(report.value) + ". Answer based on these facts."
  {
    match report
    case None => Persona
    case Some(data) => Persona + " You are currently discussing this report: " + json(data) + ". Answer based on these facts."
  }

  /** The history as turns, in order and keeping role and text, followed by the new message as a user turn. */
  function ChatContents(history: seq<ChatMessage>, newMessage: string): (c: seq<Content>)
    ensures |c| == |history| + 1
    ensures forall i :: 0 <= i < |history| ==> c[i].role == history[i].role && c[i].text == history[i].content
    ensures c[|history|] == Content(User, newMessage)
  {
    seq(|history|, i requires 0 <= i < |history| => Content(history[i].role, history[i].content)) +
    [Content(User, newMessage)]
  }

  /** `generateChatResponse`: the reply text, the placeholder for an empty reply, or the chat error. */
  function ChatReply(report: Option<FinancialPerformanceData>, history: seq<ChatMessage>, newMessage: string,
                     json: FinancialPerformanceData -> string, llm: ChatRequest -> ChatAnswer): (r: Result<string, Thrown>)
    ensures var answer := llm(ChatRequest(SystemInstruction(report, json), ChatContents(history, newMessage)));
      (answer.Replied? <==> r.Success?) &&
      (answer.Replied? && answer.text != "" ==> r.value == answer.text) &&
      (answer.Replied? && answer.text == "" ==> r.value == EmptyReplyPlaceholder) &&
      (answer.ChatRequestFailed? ==> r == Failure(ErrorObject(ChatError))) &&
      (answer.ChatClientThrew? ==> r == Failure(answer.thrown))
    ensures r.Success? ==> r.value != ""
  {
    match llm(ChatRequest(SystemInstruction(report, json), ChatContents(history, newMessage)))
    case ChatClientThrew(thrown) => Failure(thrown)
    case ChatRequestFailed => Failure(ErrorObject(ChatError))
    case Replied(text) => Success(if text == "" then EmptyReplyPlaceholder else text)
  }
}
