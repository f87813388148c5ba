/** The `POST /api/validate-idea` route: it forwards the prompt to the Gemini
    `generateContent` endpoint and answers `{ result }`, where `result` is
    the model's fence-stripped text or, on every failure path, the JSON of a
    fixed mock report. The route never answers with an error status. */
module ValidateRoute {
  import opened Optional
  import opened TextOps
  import opened Fences
  import opened Reports
  import IdeaValidator

  // ---------------------------------------------------------------- wire shapes

  /** The incoming request body: one on which `const { prompt } = await
      request.json()` throws (a body that is not JSON, or the JSON `null`),
      or a JSON value whose `prompt` is a string or absent. */
  datatype IncomingRequest = NotJson | Json(prompt: Option<string>)

  /** The Gemini content shapes, shared by the request and the reply. An
      absent (or null) member is None; a `text` that is not a string is None
      too, since the route's string operations throw on it. */
  datatype Part = Part(text: Option<string>)
  datatype Content = Content(parts: Option<seq<Part>>)
  datatype Candidate = Candidate(content: Option<Content>)
  datatype GeminiBody = GeminiBody(candidates: Option<seq<Option<Candidate>>>)

  /** What `fetch` yields: it throws, or a status with a body that
      `response.json()` reads (None when it throws or yields no object). */
  datatype Upstream = Unreachable | Responded(status: int, body: Option<GeminiBody>)

  /** `response.ok`. */
  predicate IsOk(status: int) {
    200 <= status <= 299
  }

  datatype SafetySetting = SafetySetting(category: string, threshold: string)

  /** The outbound body, without `temperature` and `topP`. */
  datatype GeminiRequest = GeminiRequest(
    contents: seq<Content>,
    topK: int,
    maxOutputTokens: int,
    safetySettings: seq<SafetySetting>)

  const BlockMediumAndAbove := "BLOCK_MEDIUM_AND_ABOVE"

  const SafetyCategories: seq<string> := [
    "HARM_CATEGORY_HARASSMENT",
    "HARM_CATEGORY_HATE_SPEECH",
    "HARM_CATEGORY_SEXUALLY_EXPLICIT",
    "HARM_CATEGORY_DANGEROUS_CONTENT"
  ]

  /** The body the route posts for a prompt: the prompt travels as the single
      part of the single content; the generation limits are fixed and every
      safety category is blocked from medium probability up. */
  function GeminiRequestFor(prompt: Option<string>): (r: GeminiRequest)
    ensures r.contents == [Content(Some([Part(prompt)]))]
    ensures r.topK == 40 && r.maxOutputTokens == 8192
    ensures |r.safetySettings| == |SafetyCategories| == 4
    ensures forall i :: 0 <= i < 4 ==> r.safetySettings[i] == SafetySetting(SafetyCategories[i], BlockMediumAndAbove)
  {
    GeminiRequest(
      [Content(Some([Part(prompt)]))],
      40,
      8192,
      seq(|SafetyCategories|, i requires 0 <= i < |SafetyCategories| =>
        SafetySetting(SafetyCategories[i], BlockMediumAndAbove)))
  }

  // ---------------------------------------------------------------- decision

  /** `!process.env.GEMINI_API_KEY` is false: the key is set and not empty. */
  predicate KeyConfigured(key: Option<string>) {
    key.Some? && key.value != ""
  }

  /** `data.candidates[0].content.parts[0].text` after the shape check: None
      where the check fails or the access throws. */
  function FirstText(body: Option<GeminiBody>): (t: Option<string>)
    ensures t.Some? <==>
      && body.Some? && body.value.candidates.Some? && |body.value.candidates.value| > 0
      && body.value.candidates.value[0].Some? && body.value.candidates.value[0].value.content.Some?
      && body.value.candidates.value[0].value.content.value.parts.Some?
      && |body.value.candidates.value[0].value.content.value.parts.value| > 0
      && body.value.candidates.value[0].value.content.value.parts.value[0].text.Some?
    ensures t.Some? ==> t == body.value.candidates.value[0].value.content.value.parts.value[0].text
  {
    if body.None? || body.value.candidates.None? || |body.value.candidates.value| == 0 then None
    else
      var first := body.value.candidates.value[0];
      if first.None? || first.value.content.None? then None
      else
        var parts := first.value.content.value.parts;
        if parts.None? || |parts.value| == 0 then None
        else parts.value[0].text
  }

  /** The body the route answers with: the mock report's JSON, or a text. */
  datatype RouteReply = MockReply | TextReply(text: string)

  /** The reply, and the request sent upstream if any. */
  datatype RouteOutcome = RouteOutcome(reply: RouteReply, sent: Option<GeminiRequest>)

  /** The reply for what the upstream call produced. */
  function ReplyFor(upstream: Upstream): (r: RouteReply)
    ensures r.TextReply? ==> Trimmed(r.text)
  {
    match upstream
    case Unreachable => MockReply
    case Responded(status, body) =>
      if !IsOk(status) then MockReply
      else
        match FirstText(body)
        case None => MockReply
        case Some(t) => TextReply(StripFences(t))
  }

  /** `POST`, for one request body, key setting and upstream behaviour. */
  function Post(request: IncomingRequest, key: Option<string>, upstream: Upstream): (o: RouteOutcome)
    ensures o.sent.Some? <==> request.Json? && KeyConfigured(key)
    ensures o.sent.Some? ==> o.sent == Some(GeminiRequestFor(request.prompt))
    ensures o.reply.TextReply? ==> o.sent.Some? && Trimmed(o.reply.text)
  {
    if request.NotJson? || !KeyConfigured(key) then RouteOutcome(MockReply, None)
    else RouteOutcome(ReplyFor(upstream), Some(GeminiRequestFor(request.prompt)))
  }

  // ---------------------------------------------------------------- properties

  /** Without a key the mock is returned, nothing is sent, and the upstream
      plays no part. */
  lemma NoKeyGivesMock(request: IncomingRequest, key: Option<string>, u: Upstream, v: Upstream)
    requires !KeyConfigured(key)
    ensures Post(request, key, u) == RouteOutcome(MockReply, None)
    ensures Post(request, key, u) == Post(request, key, v)
  {
  }

  /** A status outside 200-299 yields the mock. */
  lemma ErrorStatusGivesMock(request: IncomingRequest, key: Option<string>, status: int, body: Option<GeminiBody>)
    requires !IsOk(status)
    ensures Post(request, key, Responded(status, body)).reply == MockReply
  {
  }

  /** An ok reply without a first candidate's first text part (or that does
      not read as JSON) yields the mock, as does an unreachable upstream. */
  lemma MissingTextGivesMock(request: IncomingRequest, key: Option<string>, upstream: Upstream)
    requires upstream.Unreachable? || FirstText(upstream.body) == None
    ensures Post(request, key, upstream).reply == MockReply
  {
  }

  /** The success path: the reply is the stripped first text part. */
  lemma SuccessStripsText(request: IncomingRequest, key: Option<string>, status: int, body: Option<GeminiBody>)
    requires request.Json? && KeyConfigured(key) && IsOk(status) && FirstText(body).Some?
    ensures Post(request, key, Responded(status, body)).reply == TextReply(StripFences(FirstText(body).value))
  {
    assert ReplyFor(Responded(status, body)) == TextReply(StripFences(FirstText(body).value));
  }

  /** Every reply is the mock or the stripped text of an ok upstream reply,
      reached only with a key and a JSON request. */
  lemma RouteOutcomes(request: IncomingRequest, key: Option<string>, upstream: Upstream)
    ensures Post(request, key, upstream).reply == MockReply
      || (&& request.Json? && KeyConfigured(key)
          && upstream.Responded? && IsOk(upstream.status) && FirstText(upstream.body).Some?
          && Post(request, key, upstream).reply == TextReply(StripFences(FirstText(upstream.body).value)))
  {
  }

  /** The browser's clean-up of a route text without backticks is the
      brace slice alone: the route already did the fence stripping. */
  lemma ClientCleansRouteText(t: string)
    requires '`' !in t
    ensures IdeaValidator.CleanJsonResponse(StripFences(t)) == IdeaValidator.SliceBraces(Trim(t))
  {
    StripFencesWithoutBacktick(t);
    TrimKeepsAbsence(t, '`');
    IdeaValidator.CleanOfPlainText(Trim(t));
  }

  // ---------------------------------------------------------------- the mock report

  /** The mock report. The route writes it out three times, identically: for
      a missing key, for an error status and in the catch-all. */
  const MockReport := ValidationResult(
    75,
    MarketSize(
      80,
      "The Indian market shows strong potential for this startup idea with a growing digital adoption rate and increasing smartphone penetration across tier-2 and tier-3 cities.",
      "\U{20B9}50,000 crores - Total addressable market in India",
      "\U{20B9}15,000 crores - Serviceable addressable market",
      "\U{20B9}500 crores - Serviceable obtainable market in first 3 years"),
    Competition(
      65,
      "Moderate competition exists in the Indian market with several established players, but there's room for differentiation through localization and pricing strategies.",
      ["Zomato", "Swiggy", "Dunzo", "BigBasket", "Grofers"],
      "Focus on tier-2 cities with local language support and cash-on-delivery options"),
    Feasibility(
      70,
      "Technically feasible with existing infrastructure. Main challenges include logistics in smaller cities and payment gateway integration.",
      ["Last-mile delivery in tier-2 cities", "Multi-language support", "Offline payment integration"],
      "Team of 8-10 people including developers, operations, and marketing professionals"),
    MarketFit(
      85,
      "Strong product-market fit potential given India's growing digital economy and changing consumer behavior post-COVID.",
      "Urban millennials and Gen-Z consumers aged 22-35 in tier-1 and tier-2 cities",
      "Aligns well with Indian preference for convenience and value-for-money propositions"),
    Financials(
      72,
      "Financially viable with proper unit economics. Revenue potential is strong with multiple monetization streams.",
      "Commission-based model with delivery fees and premium subscriptions",
      "Competitive pricing with promotional offers for market penetration",
      "\U{20B9}5-10 crores for initial setup and 18-month runway"),
    Risks(
      60,
      "Moderate to high risk due to competitive market and regulatory challenges in food delivery space.",
      ["Intense competition", "Regulatory changes", "High customer acquisition costs", "Logistics challenges"],
      ["Focus on niche markets", "Build strong local partnerships", "Invest in technology", "Maintain healthy unit economics"]),
    [ "Start with a focused geographic area (2-3 cities) before expanding"
    , "Invest heavily in local partnerships and supply chain"
    , "Develop strong mobile app with vernacular language support"
    , "Focus on unit economics from day one"
    , "Build a strong brand presence through digital marketing" ],
    [ "Conduct detailed market research in target cities"
    , "Build MVP and test with limited user base"
    , "Secure initial funding of \U{20B9}2-3 crores"
    , "Hire core team members"
    , "Establish partnerships with local vendors" ])

  /** The mock scores 75 overall, and every score in it is a percentage. */
  lemma MockReportScores()
    ensures MockReport.overallScore == 75
    ensures ScoresInRange(MockReport)
  {
  }
}
