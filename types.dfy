/**
 * The application's data model: the analyst report the language model returns, its parts,
 * chat messages and the views of the single-page application.
 * JavaScript numbers are modelled as `real`.
 */
module Types {
  import opened Wrappers

  /** The four screens the bottom navigation switches between. */
  datatype View = DashboardTab | UploadTab | DocumentsTab | ChatTab

  function ViewName(v: View): string
  {
    match v
    case DashboardTab => "dashboard"
    case UploadTab => "upload"
    case DocumentsTab => "documents"
    case ChatTab => "chat"
  }

  /** The view a string names: exactly the four names are views. */
  function ParseView(s: string): (r: Option<View>)
    ensures r.Some? ==> ViewName(r.value) == s
    ensures r.None? ==> forall v :: ViewName(v) != s
  {
    if s == "dashboard" then Some(DashboardTab)
    else if s == "upload" then Some(UploadTab)
    else if s == "documents" then Some(DocumentsTab)
    else if s == "chat" then Some(ChatTab)
    else None
  }

  /** Who wrote a chat message. */
  datatype Role = User | Model

  function RoleName(r: Role): string
  {
    match r
    case User => "user"
    case Model => "model"
  }

  /** The role a string names: exactly `user` and `model` are roles. */
  function ParseRole(s: string): (r: Option<Role>)
    ensures r.Some? ==> RoleName(r.value) == s
    ensures r.None? ==> forall x :: RoleName(x) != s
  {
    if s == "user" then Some(User) else if s == "model" then Some(Model) else None
  }

  datatype ChatMessage = ChatMessage(role: Role, content: string)

  /** How attainable the valuation target is. */
  datatype Achievability = Low | Medium | High

  function AchievabilityName(a: Achievability): string
  {
    match a
    case Low => "Low"
    case Medium => "Medium"
    case High => "High"
  }

  /** The achievability a string names: exactly `Low`, `Medium` and `High`. */
  function ParseAchievability(s: string): (r: Option<Achievability>)
    ensures r.Some? ==> AchievabilityName(r.value) == s
    ensures r.None? ==> forall a :: AchievabilityName(a) != s
  {
    if s == "Low" then Some(Low) else if s == "Medium" then Some(Medium)
    else if s == "High" then Some(High) else None
  }

  /** One line of a period comparison; shared by the key metrics and the financials. */
  datatype IncomeStatementItem = IncomeStatementItem(
    metric: string,
    percentageChange: real,
    currentValue: real,
    previousValue: real,
    previousPeriod: string,
    currentPeriod: string)

  datatype QualityRating = QualityRating(factor: string, rating: real)

  /** The range the rating is documented to lie in; nothing in the application enforces it. */
  predicate InDocumentedRange(q: QualityRating)
  {
    1.0 <= q.rating <= 5.0
  }

  datatype FinancialRatio = FinancialRatio(metric: string, value: string, description: string)

  /** A scenario line; the source calls the first field `label`, a reserved word here. */
  datatype ValuationMetric = ValuationMetric(caption: string, value: string)

  datatype Valuation = Valuation(
    fcfScenario1: seq<ValuationMetric>,
    fcfScenario2: seq<ValuationMetric>,
    achievability: Achievability,
    fairValue: string,
    undervaluationPercent: real)

  datatype DCFAnalysis = DCFAnalysis(
    currentEarnings: string,
    shortTermGrowth: string,
    longTermGrowth: string,
    discountRate: string,
    terminalMultiple: string,
    timePeriod: string,
    intrinsicValue: string,
    simpleValuation: string)

  datatype ValuationRatios = ValuationRatios(dividendYield: string, eps: string, peRatio: string)

  /** The structured analyst report. */
  datatype FinancialPerformanceData = FinancialPerformanceData(
    title: string,
    subtitle: string,
    asOfDate: string,
    keyMetrics: seq<IncomeStatementItem>,
    quality: seq<QualityRating>,
    financials: seq<IncomeStatementItem>,
    financialRatios: seq<FinancialRatio>,
    pros: seq<string>,
    cons: seq<string>,
    valuation: Valuation,
    dcfAnalysis: DCFAnalysis,
    valuationRatios: ValuationRatios,
    summary: string)
}
