/** The validation report the model is asked to return (the `ValidationResult`
    interface of components/idea-validator.tsx), and the three-way score band
    both components use to colour a score. */
module Reports {

  datatype MarketSize = MarketSize(score: int, analysis: string, tam: string, sam: string, som: string)

  datatype Competition = Competition(
    score: int, analysis: string, competitors: seq<string>, competitiveAdvantage: string)

  datatype Feasibility = Feasibility(
    score: int, analysis: string, technicalChallenges: seq<string>, resourceRequirements: string)

  datatype MarketFit = MarketFit(score: int, analysis: string, targetAudience: string, culturalFit: string)

  datatype Financials = Financials(
    score: int, analysis: string, revenueModel: string, pricingStrategy: string, fundingRequirement: string)

  datatype Risks = Risks(
    score: int, analysis: string, majorRisks: seq<string>, mitigationStrategies: seq<string>)

  datatype ValidationResult = ValidationResult(
    overallScore: int,
    marketSize: MarketSize,
    competition: Competition,
    feasibility: Feasibility,
    marketFit: MarketFit,
    financials: Financials,
    risks: Risks,
    recommendations: seq<string>,
    nextSteps: seq<string>)

  predicate InPercentRange(score: int) {
    0 <= score <= 100
  }

  /** The report invariant: the overall score and all six section scores are percentages. */
  predicate ScoresInRange(r: ValidationResult) {
    && InPercentRange(r.overallScore)
    && InPercentRange(r.marketSize.score)
    && InPercentRange(r.competition.score)
    && InPercentRange(r.feasibility.score)
    && InPercentRange(r.marketFit.score)
    && InPercentRange(r.financials.score)
    && InPercentRange(r.risks.score)
  }

  /** The bands a score is shown in: 80 and above, 60 to 79, below 60. */
  datatype Band = High | Middle | Low

  function Rank(b: Band): nat {
    match b
    case Low => 0
    case Middle => 1
    case High => 2
  }

  function ScoreBand(score: int): (b: Band)
    ensures b == High <==> 80 <= score
    ensures b == Middle <==> 60 <= score < 80
    ensures b == Low <==> score < 60
  {
    if score >= 80 then High else if score >= 60 then Middle else Low
  }

  /** A higher score never falls into a lower band. */
  lemma BandMonotone(s: int, t: int)
    requires s <= t
    ensures Rank(ScoreBand(s)) <= Rank(ScoreBand(t))
  {
  }

  /** `getScoreBadgeVariant`, written the same way in both components. */
  function BadgeVariant(score: int): (v: string)
    ensures v == "default" <==> ScoreBand(score) == High
    ensures v == "secondary" <==> ScoreBand(score) == Middle
    ensures v == "destructive" <==> ScoreBand(score) == Low
  {
    if score >= 80 then "default"
    else if score >= 60 then "secondary"
    else "destructive"
  }
}
