/** The browser component that collects the idea form, builds the prompt,
    posts it to the server route, recovers a report from the reply and saves it
    (components/idea-validator.tsx). */
module IdeaValidator {
  import opened Optional
  import opened TextOps
  import opened Fences
  import opened Reports

  // ---------------------------------------------------------------- the form

  datatype IdeaForm = IdeaForm(
    ideaTitle: string,
    ideaDescription: string,
    targetMarket: string,
    businessModel: string,
    stage: string,
    budget: string,
    timeline: string,
    experience: string)

  /** The eight inputs of the form, by the key the change handler is given. */
  datatype Field =
    | IdeaTitle | IdeaDescription | TargetMarket | BusinessModel
    | Stage | Budget | Timeline | Experience

  const EmptyForm := IdeaForm("", "", "", "", "", "", "", "")

  function Get(f: IdeaForm, field: Field): string {
    match field
    case IdeaTitle => f.ideaTitle
    case IdeaDescription => f.ideaDescription
    case TargetMarket => f.targetMarket
    case BusinessModel => f.businessModel
    case Stage => f.stage
    case Budget => f.budget
    case Timeline => f.timeline
    case Experience => f.experience
  }

  /** `{ ...prev, [field]: value }`: the given input takes the new value, the others keep theirs. */
  function With(f: IdeaForm, field: Field, value: string): (g: IdeaForm)
    ensures Get(g, field) == value
    ensures forall other :: other != field ==> Get(g, other) == Get(f, other)
  {
    match field
    case IdeaTitle => f.(ideaTitle := value)
    case IdeaDescription => f.(ideaDescription := value)
    case TargetMarket => f.(targetMarket := value)
    case BusinessModel => f.(businessModel := value)
    case Stage => f.(stage := value)
    case Budget => f.(budget := value)
    case Timeline => f.(timeline := value)
    case Experience => f.(experience := value)
  }

  /** Submission needs a title and a description; JavaScript treats "" as false. */
  predicate CanSubmit(f: IdeaForm) {
    f.ideaTitle != "" && f.ideaDescription != ""
  }

  /** The untouched form cannot be submitted, and only the title and the
      description decide whether a form can: editing any other input leaves
      the answer as it was. */
  lemma OnlyTitleAndDescriptionGate(f: IdeaForm, field: Field, value: string)
    ensures !CanSubmit(EmptyForm)
    ensures field != IdeaTitle && field != IdeaDescription ==>
      (CanSubmit(With(f, field, value)) <==> CanSubmit(f))
    ensures field == IdeaTitle && value == "" ==> !CanSubmit(With(f, field, value))
    ensures field == IdeaDescription && value == "" ==> !CanSubmit(With(f, field, value))
  {
    assert Get(With(f, field, value), IdeaTitle) == With(f, field, value).ideaTitle;
    assert Get(With(f, field, value), IdeaDescription) == With(f, field, value).ideaDescription;
  }

  // ---------------------------------------------------------------- the prompt

  function Label(field: Field): string {
    match field
    case IdeaTitle => "Idea Title: "
    case IdeaDescription => "Description: "
    case TargetMarket => "Target Market: "
    case BusinessModel => "Business Model: "
    case Stage => "Stage: "
    case Budget => "Budget: "
    case Timeline => "Timeline: "
    case Experience => "Founder Experience: "
  }

  const Indent := "      "

  const PromptOpening := "\n      As an expert startup advisor specializing in the Indian market, provide a comprehensive validation analysis for this startup idea:\n\n"
  const PromptClosing :=
    "\n"
    + "      Please analyze this idea specifically for the Indian market and provide ONLY a valid JSON response with the following exact structure (no markdown, no explanations, just the JSON):\n"
    + "\n"
    + "      {\n"
    + "        \"overallScore\": 75,\n"
    + "        \"marketSize\": {\n"
    + "          \"score\": 80,\n"
    + "          \"analysis\": \"detailed analysis of market size in India\",\n"
    + "          \"tam\": \"Total Addressable Market in India\",\n"
    + "          \"sam\": \"Serviceable Addressable Market\",\n"
    + "          \"som\": \"Serviceable Obtainable Market\"\n"
    + "        },\n"
    + "        \"competition\": {\n"
    + "          \"score\": 65,\n"
    + "          \"analysis\": \"competitive landscape analysis in India\",\n"
    + "          \"competitors\": [\"competitor1\", \"competitor2\", \"competitor3\"],\n"
    + "          \"competitiveAdvantage\": \"potential competitive advantages\"\n"
    + "        },\n"
    + "        \"feasibility\": {\n"
    + "          \"score\": 70,\n"
    + "          \"analysis\": \"technical and operational feasibility in India\",\n"
    + "          \"technicalChallenges\": [\"challenge1\", \"challenge2\", \"challenge3\"],\n"
    + "          \"resourceRequirements\": \"required resources and team\"\n"
    + "        },\n"
    + "        \"marketFit\": {\n"
    + "          \"score\": 85,\n"
    + "          \"analysis\": \"product-market fit analysis for India\",\n"
    + "          \"targetAudience\": \"detailed target audience description\",\n"
    + "          \"culturalFit\": \"how well it fits Indian culture and preferences\"\n"
    + "        },\n"
    + "        \"financials\": {\n"
    + "          \"score\": 72,\n"
    + "          \"analysis\": \"financial viability analysis\",\n"
    + "          \"revenueModel\": \"recommended revenue model for India\",\n"
    + "          \"pricingStrategy\": \"pricing strategy considering Indian market\",\n"
    + "          \"fundingRequirement\": \"estimated funding requirements\"\n"
    + "        },\n"
    + "        \"risks\": {\n"
    + "          \"score\": 60,\n"
    + "          \"analysis\": \"risk assessment for Indian market\",\n"
    + "          \"majorRisks\": [\"risk1\", \"risk2\", \"risk3\"],\n"
    + "          \"mitigationStrategies\": [\"strategy1\", \"strategy2\", \"strategy3\"]\n"
    + "        },\n"
    + "        \"recommendations\": [\"recommendation1\", \"recommendation2\", \"recommendation3\"],\n"
    + "        \"nextSteps\": [\"step1\", \"step2\", \"step3\"]\n"
    + "      }\n"
    + "\n"
    + "      Consider Indian-specific factors like regulatory environment, payment preferences (UPI, cash, digital wallets), language and localization needs, tier 1/2/3 city differences, price sensitivity, cultural preferences, government initiatives, infrastructure challenges, and local competition.\n"
    + "\n"
    + "      IMPORTANT: Return ONLY the JSON object, no markdown formatting, no explanations.\n"
    + "    "

  /** One line of the template: the field's label followed by its value, verbatim. */
  function FieldLine(f: IdeaForm, field: Field): string {
    Indent + Label(field) + Get(f, field) + "\n"
  }

  /** The eight value lines, in template order. */
  function FieldLines(f: IdeaForm): seq<string> {
    [ FieldLine(f, IdeaTitle), FieldLine(f, IdeaDescription)
    , FieldLine(f, TargetMarket), FieldLine(f, BusinessModel)
    , FieldLine(f, Stage), FieldLine(f, Budget)
    , FieldLine(f, Timeline), FieldLine(f, Experience) ]
  }

  function Position(field: Field): (i: nat)
    ensures i < 8
  {
    match field
    case IdeaTitle => 0
    case IdeaDescription => 1
    case TargetMarket => 2
    case BusinessModel => 3
    case Stage => 4
    case Budget => 5
    case Timeline => 6
    case Experience => 7
  }

  /** The prompt template of `validateIdea`, with the eight form values filled in. */
  function BuildPrompt(f: IdeaForm): string {
    PromptOpening + Concat(FieldLines(f)) + PromptClosing
  }

  /** Every form value appears in the prompt on a line of its own, right after
      its label. */
  lemma PromptEmbedsField(f: IdeaForm, field: Field)
    ensures Infix(FieldLine(f, field), BuildPrompt(f))
  {
    FieldLinesEmbedField(f, field);
    InfixWithin(FieldLine(f, field), PromptOpening, Concat(FieldLines(f)), PromptClosing);
  }

  /** The prompt opens with the fixed advisor sentence and ends with the fixed
      instructions and JSON template, whatever the form holds. */
  lemma PromptFraming(f: IdeaForm)
    ensures BeginsWith(BuildPrompt(f), PromptOpening) && EndsWith(BuildPrompt(f), PromptClosing)
  {
    Framed(PromptOpening, Concat(FieldLines(f)), PromptClosing);
  }

  /** `a` is a prefix of `s`. */
  ghost predicate BeginsWith(s: string, a: string) {
    exists m :: s == a + m
  }

  /** `c` is a suffix of `s`. */
  ghost predicate EndsWith(s: string, c: string) {
    exists m :: s == m + c
  }

  lemma Framed(a: string, m: string, c: string)
    ensures BeginsWith(a + m + c, a) && EndsWith(a + m + c, c)
  {
    assert a + m + c == a + (m + c);
  }

  lemma FieldLinesEmbedField(f: IdeaForm, field: Field)
    ensures Infix(FieldLine(f, field), Concat(FieldLines(f)))
  {
    var lines := FieldLines(f);
    assert lines[Position(field)] == FieldLine(f, field);
    ConcatHasInfix(lines, Position(field));
  }

  // ---------------------------------------------------------------- reply clean-up

  /** The last step of `cleanJsonResponse`: when a "{" comes before the last
      "}", keep the text from the first "{" to the last "}", both included. */
  function SliceBraces(t: string): (r: string)
    ensures |r| <= |t|
    ensures Trimmed(t) ==> Trimmed(r)
  {
    var first := IndexOf(t, '{');
    var last := LastIndexOf(t, '}');
    if first != -1 && last != -1 && last > first then t[first..last + 1] else t
  }

  /** Text that opens with "{" and closes with a separate "}". */
  predicate Braced(r: string) {
    |r| >= 2 && r[0] == '{' && r[|r| - 1] == '}'
  }

  /** Slicing happens exactly when some "{" precedes some "}", and then the
      result runs from the first "{" to the last "}". */
  lemma SliceBracesSpans(t: string)
    ensures HasPairBefore(t, '{', '}') ==>
      && 0 <= IndexOf(t, '{') < LastIndexOf(t, '}')
      && SliceBraces(t) == t[IndexOf(t, '{')..LastIndexOf(t, '}') + 1]
    ensures !HasPairBefore(t, '{', '}') ==> SliceBraces(t) == t
  {
    if HasPairBefore(t, '{', '}') {
      var i, j :| 0 <= i < j < |t| && t[i] == '{' && t[j] == '}';
      IndexOfFirst(t, '{', i);
      LastIndexOfLast(t, '}', j);
    }
  }

  /** A sliced text starts with "{" and ends with "}". */
  lemma SliceIsBraced(t: string)
    requires HasPairBefore(t, '{', '}')
    ensures Braced(SliceBraces(t))
  {
    SliceBracesSpans(t);
    var f, l := IndexOf(t, '{'), LastIndexOf(t, '}');
    assert t[f..l + 1][0] == t[f];
    assert t[f..l + 1][l - f] == t[l];
  }

  /** `cleanJsonResponse`: the fence clean-up, then brace slicing. */
  function CleanJsonResponse(text: string): (r: string)
    ensures Trimmed(r) && |r| <= |text|
  {
    SliceBraces(StripFences(text))
  }

  /** With a "{" before a "}" in the fence-stripped text, the cleaned reply is
      the span from its first "{" to its last "}", braces included. */
  lemma CleanSlicesBraces(text: string)
    requires HasPairBefore(StripFences(text), '{', '}')
    ensures 0 <= IndexOf(StripFences(text), '{') < LastIndexOf(StripFences(text), '}')
    ensures CleanJsonResponse(text)
      == StripFences(text)[IndexOf(StripFences(text), '{')..LastIndexOf(StripFences(text), '}') + 1]
    ensures Braced(CleanJsonResponse(text))
  {
    SliceBracesSpans(StripFences(text));
    SliceIsBraced(StripFences(text));
  }

  /** Otherwise the cleaned reply is the fence-stripped text unchanged. */
  lemma CleanKeepsUnbracedText(text: string)
    requires !HasPairBefore(StripFences(text), '{', '}')
    ensures CleanJsonResponse(text) == StripFences(text)
  {
    SliceBracesSpans(StripFences(text));
  }

  /** Slicing keeps a text that starts with "{" and ends with "}" whole. */
  lemma SliceKeepsBraced(s: string)
    requires Braced(s)
    ensures SliceBraces(s) == s
  {
    assert IndexOf(s, '{') == 0;
    assert LastIndexOf(s, '}') == |s| - 1;
    assert s[0..|s|] == s;
  }

  /** On trimmed text without backticks the fence clean-up does nothing, so
      cleaning is slicing alone. */
  lemma CleanOfPlainText(t: string)
    requires '`' !in t && Trimmed(t)
    ensures CleanJsonResponse(t) == SliceBraces(t)
  {
    StripFencesWithoutBacktick(t);
  }

  /** A text that already starts with "{", ends with "}" and has no backtick
      comes back unchanged. */
  lemma CleanKeepsJsonText(s: string)
    requires Braced(s) && '`' !in s
    ensures CleanJsonResponse(s) == s
  {
    assert Trimmed(s);
    CleanOfPlainText(s);
    SliceKeepsBraced(s);
  }

  /** Slicing adds no character. */
  lemma SliceKeepsAbsence(t: string, c: char)
    requires c !in t
    ensures c !in SliceBraces(t)
  {
    if HasPairBefore(t, '{', '}') {
      SliceBracesSpans(t);
      AbsentFromSlice(t, IndexOf(t, '{'), LastIndexOf(t, '}') + 1, c);
    } else {
      SliceBracesSpans(t);
    }
  }

  /** Slicing a second time changes nothing. */
  lemma SliceBracesIdempotent(t: string)
    ensures SliceBraces(SliceBraces(t)) == SliceBraces(t)
  {
    if HasPairBefore(t, '{', '}') {
      SliceIsBraced(t);
      SliceKeepsBraced(SliceBraces(t));
    } else {
      SliceBracesSpans(t);
    }
  }

  /** Cleaning introduces no character: one absent from the reply is absent
      from the cleaned text. */
  lemma CleanKeepsAbsence(s: string, c: char)
    requires c !in s
    ensures c !in CleanJsonResponse(s)
  {
    StripFencesKeepAbsence(s, c);
    SliceKeepsAbsence(StripFences(s), c);
  }

  /** Without backticks, cleaning twice gives what cleaning once gives. */
  lemma CleanIdempotentWithoutBackticks(s: string)
    requires '`' !in s
    ensures CleanJsonResponse(CleanJsonResponse(s)) == CleanJsonResponse(s)
  {
    CleanKeepsAbsence(s, '`');
    CleanOfPlainText(CleanJsonResponse(s));
    SliceBracesIdempotent(StripFences(s));
  }

  // ---------------------------------------------------------------- worked replies

  /** The json-fence scan copies a prefix without backticks unchanged. */
  lemma {:induction false} JsonMarkersSkipPlainPrefix(p: string, q: string)
    requires '`' !in p
    ensures MarkerScan(p + q, false) == p + MarkerScan(q, false)
  {
    if p != [] {
      var s := p + q;
      assert s[0] == p[0];
      assert s[1..] == p[1..] + q;
      AbsentFromSlice(p, 1, |p|, '`');
      JsonMarkersSkipPlainPrefix(p[1..], q);
      assert [p[0]] + p[1..] == p;
    } else {
      assert p + q == q;
    }
  }

  /** Text shorter than "```json" holds no marker. */
  lemma {:induction false} JsonMarkersShort(s: string)
    requires |s| < 7
    ensures MarkerScan(s, false) == s
  {
    if s != [] {
      JsonMarkersShort(s[1..]);
      assert [s[0]] + s[1..] == s;
    }
  }

  /** A leading "```json" goes, and the scan goes on skipping white space. */
  lemma JsonMarkerInFront(x: string)
    ensures StripJsonMarkers("```json" + x) == MarkerScan(x, true)
  {
    var s := "```json" + x;
    assert StartsWithJsonMarker(s);
    assert s[7..] == x;
  }

  /** The white-space skipping ends at a character that starts no marker. */
  lemma SkippingEnds(x: string)
    requires x != [] && !IsWs(x[0]) && !StartsWithJsonMarker(x)
    ensures MarkerScan(x, true) == MarkerScan(x, false)
  {
  }

  lemma FencedRegroup(p: string)
    ensures "```json\n" + p + "\n```" == "```json" + ("\n" + (p + "\n```"))
    ensures p + "\n```" == (p + "\n") + "```"
    ensures (p + "\n") + "```" + [] == p + "\n```"
  {
  }

  lemma FencedBodyMarkers(p: string)
    requires Braced(p) && '`' !in p
    ensures MarkerScan(p + "\n```", true) == p + "\n```"
  {
    FencedRegroup(p);
    SkippingEnds(p + "\n```");
    JsonMarkersSkipPlainPrefix(p + "\n", "```");
    JsonMarkersShort("```");
  }

  /** Removing the opening "```json" and the line break after it. */
  lemma FencedMarkers(p: string)
    requires Braced(p) && '`' !in p
    ensures StripJsonMarkers("```json\n" + p + "\n```") == p + "\n```"
  {
    FencedRegroup(p);
    JsonMarkerInFront("\n" + (p + "\n```"));
    assert ("\n" + (p + "\n```"))[1..] == p + "\n```";
    FencedBodyMarkers(p);
  }

  /** `trim` drops the line break after a braced text. */
  lemma TrimBracedLine(p: string)
    requires Braced(p)
    ensures Trim(p + "\n") == p
  {
    var x := p + "\n";
    assert x[0] == '{';
    TrimStartKeeps(x);
    assert x[..|x| - 1] == p;
    TrimEndDropsLast(x);
    TrimEndKeeps(p);
  }

  lemma TrimStartKeeps(s: string)
    requires s != [] && !IsWs(s[0])
    ensures TrimStart(s) == s
  {
  }

  lemma TrimEndKeeps(s: string)
    requires s != [] && !IsWs(s[|s| - 1])
    ensures TrimEnd(s) == s
  {
  }

  lemma TrimEndDropsLast(s: string)
    requires s != [] && IsWs(s[|s| - 1])
    ensures TrimEnd(s) == TrimEnd(s[..|s| - 1])
  {
  }

  /** The last two replacements and the final `trim` leave a braced text alone. */
  lemma BracedPassesLastSteps(p: string)
    requires Braced(p)
    ensures Trim(StripClosingNewlineFence(StripOpeningFenceLine(p))) == p
  {
    assert !StartsWithFence(p);
    assert StripOpeningFenceLine(p) == p;
    assert !EndsWithNewlineFence(p);
    assert StripClosingNewlineFence(p) == p;
    assert Trimmed(p);
  }

  /** A fenced reply: the fence stripping leaves exactly the braced body. */
  lemma FencedFences(p: string)
    requires Braced(p) && '`' !in p
    ensures StripFences("```json\n" + p + "\n```") == p
  {
    FencedMarkers(p);
    FencedRegroup(p);
    ClosingFenceRemoved(p + "\n", []);
    TrimBracedLine(p);
    BracedPassesLastSteps(p);
  }

  /** A marker-free character in front is copied by the json-fence scan. */
  lemma JsonMarkersCopyFirst(c: char, q: string)
    requires !StartsWithJsonMarker([c] + q)
    ensures MarkerScan([c] + q, false) == [c] + MarkerScan(q, false)
  {
    assert ([c] + q)[1..] == q;
  }

  /** A bare "```" fence holds no "```json" marker. */
  lemma BareFenceMarkers(p: string)
    requires Braced(p) && '`' !in p
    ensures StripJsonMarkers("```\n" + p + "\n```") == "```\n" + p + "\n```"
  {
    var q := p + "\n```";
    assert "```\n" + p + "\n```" == "`" + ("`" + ("`" + ("\n" + q)));
    JsonMarkersCopyFirst('\n', q);
    JsonMarkersCopyFirst('`', "\n" + q);
    JsonMarkersCopyFirst('`', "`" + ("\n" + q));
    JsonMarkersCopyFirst('`', "`" + ("`" + ("\n" + q)));
    FencedRegroup(p);
    JsonMarkersSkipPlainPrefix(p + "\n", "```");
    JsonMarkersShort("```");
  }

  /** A reply in a bare "```" fence: the fence stripping leaves exactly the
      braced body. */
  lemma BareFenceFences(p: string)
    requires Braced(p) && '`' !in p
    ensures StripFences("```\n" + p + "\n```") == p
  {
    BareFenceMarkers(p);
    BareFenceFirstSteps(p);
    BareFenceOpening(p);
    BracedEndsClean(p);
  }

  /** The closing fence and the line break before it go. */
  lemma BareFenceFirstSteps(p: string)
    requires Braced(p)
    ensures Trim(StripClosingFence("```\n" + p + "\n```")) == "```\n" + p
  {
    var q := "```\n" + p;
    BareFenceClosing(q);
    assert q[0] == '`' && q[|q| - 1] == p[|p| - 1];
    TrimFinalBreak(q);
  }

  lemma BareFenceClosing(q: string)
    ensures StripClosingFence(q + "\n```") == q + "\n"
  {
    assert q + "\n```" == (q + "\n") + "```" + [];
    ClosingFenceRemoved(q + "\n", []);
  }

  /** `trim` drops a final line break after text that ends in no white space. */
  lemma TrimFinalBreak(q: string)
    requires q != [] && !IsWs(q[0]) && !IsWs(q[|q| - 1])
    ensures Trim(q + "\n") == q
  {
    var x := q + "\n";
    assert x[0] == q[0];
    TrimStartKeeps(x);
    assert x[..|x| - 1] == q;
    TrimEndDropsLast(x);
    TrimEndKeeps(q);
  }

  /** The empty opening line goes. */
  lemma BareFenceOpening(p: string)
    ensures StripOpeningFenceLine("```\n" + p) == p
  {
    assert "```\n" + p == "```" + [] + "\n" + p;
    OpeningFenceLineRemoved([], p);
  }

  lemma BracedEndsClean(p: string)
    requires Braced(p)
    ensures Trim(StripClosingNewlineFence(p)) == p
  {
    assert !EndsWithNewlineFence(p);
    assert Trimmed(p);
  }

  /** A JSON object wrapped in a bare "```" fence is reduced to the object. */
  lemma CleanBareFencedObject(p: string)
    requires Braced(p) && '`' !in p
    ensures CleanJsonResponse("```\n" + p + "\n```") == p
  {
    BareFenceFences(p);
    SliceKeepsBraced(p);
  }

  /** A JSON object wrapped in a "```json" fence is reduced to the object. */
  lemma CleanFencedObject(p: string)
    requires Braced(p) && '`' !in p
    ensures CleanJsonResponse("```json\n" + p + "\n```") == p
  {
    FencedFences(p);
    SliceKeepsBraced(p);
  }

  /** The fenced reply shape the prompt warns against is reduced to its JSON. */
  lemma CleanExample(reply: string, json: string)
    requires reply == "```json\n{\"a\":1}\n```" && json == "{\"a\":1}"
    ensures CleanJsonResponse(reply) == json
  {
    assert reply == "```json\n" + json + "\n```";
    CleanFencedObject(json);
  }

  /** A text whose last character is neither white space nor a backtick has
      no closing fence to remove. */
  lemma ClosingFenceNeedsFenceEnd(s: string)
    requires s != [] && !IsWs(s[|s| - 1]) && s[|s| - 1] != '`'
    ensures StripClosingFence(s) == s
  {
    var r := StripClosingFence(s);
    if |r| + 3 <= |s| {
      assert s[|s| - 1] == s[|r|..][|s| - 1 - |r|];
    }
  }

  /** A braced result of the first replacement passes the remaining steps unchanged. */
  lemma BracedSurvivesLaterSteps(x: string, y: string)
    requires StripJsonMarkers(x) == y && Braced(y)
    ensures CleanJsonResponse(x) == y
  {
    ClosingFenceNeedsFenceEnd(y);
    assert Trimmed(y);
    BracedPassesLastSteps(y);
    SliceKeepsBraced(y);
  }

  lemma BracedJoin(p: string, m: string, q: string)
    requires p != [] && p[0] == '{' && q != [] && q[|q| - 1] == '}'
    ensures Braced(p + m + q)
  {
    var s := p + m + q;
    assert s[0] == p[0] && s[|s| - 1] == q[|q| - 1];
  }

  lemma CopyTick(t: string)
    ensures MarkerScan("`" + ("```json" + t), false) == "`" + MarkerScan(t, true)
  {
    var s := "`" + ("```json" + t);
    assert s[3] == '`';
    assert s[1..] == "```json" + t;
    assert StartsWithJsonMarker(s[1..]);
    assert s[1..][7..] == t;
  }

  lemma CopyTwoTicks(t: string)
    ensures MarkerScan("``" + ("```json" + t), false) == "``" + MarkerScan(t, true)
  {
    var s := "``" + ("```json" + t);
    assert s[3] == '`';
    assert s[1..] == "`" + ("```json" + t);
    CopyTick(t);
  }

  /** After a marker, a backtick that starts no marker ends the skipping. */
  lemma TickThenPlain(u: string)
    requires '`' !in u && u != [] && u[0] == 'j'
    ensures MarkerScan("`" + u, true) == "`" + u
  {
    var s := "`" + u;
    assert s[1] == 'j';
    assert s[1..] == u;
    MarkerScanWithoutBacktick(u);
  }

  /** The ends of a JSON text around a string value; neither holds a backtick. */
  predicate JsonOpen(p: string) {
    p != [] && p[0] == '{' && '`' !in p
  }

  predicate JsonClose(q: string) {
    q != [] && q[|q| - 1] == '}' && !IsWs(q[0]) && '`' !in q
  }

  lemma RejoinRegroup(p: string, q: string)
    ensures p + "`````json`json" + q == p + ("``" + ("```json" + ("`" + ("json" + q))))
    ensures p + ("``" + ("`" + ("json" + q))) == p + "```json" + q
    ensures p + "```json" + q == p + ("```json" + q)
  {
  }

  /** The first cleaning joins two backticks before a deleted "```json" with
      the backtick after it into a new "```json". */
  lemma RejoinFirstPass(p: string, q: string)
    requires JsonOpen(p) && JsonClose(q)
    ensures StripJsonMarkers(p + "`````json`json" + q) == p + "```json" + q
  {
    RejoinRegroup(p, q);
    var u := "json" + q;
    assert u[0] == 'j' && '`' !in u;
    JsonMarkersSkipPlainPrefix(p, "``" + ("```json" + ("`" + u)));
    CopyTwoTicks("`" + u);
    TickThenPlain(u);
  }

  /** The second cleaning deletes the joined marker. */
  lemma RejoinSecondPass(p: string, q: string)
    requires JsonOpen(p) && JsonClose(q)
    ensures StripJsonMarkers(p + "```json" + q) == p + q
  {
    RejoinRegroup(p, q);
    JsonMarkersSkipPlainPrefix(p, "```json" + q);
    var s := "```json" + q;
    assert StartsWithJsonMarker(s) && s[7..] == q;
    assert q[0] != '`';
    SkippingEnds(q);
    MarkerScanWithoutBacktick(q);
  }

  lemma CleanRejoins(p: string, q: string)
    requires JsonOpen(p) && JsonClose(q)
    ensures CleanJsonResponse(p + "`````json`json" + q) == p + "```json" + q
  {
    RejoinFirstPass(p, q);
    BracedJoin(p, "```json", q);
    BracedSurvivesLaterSteps(p + "`````json`json" + q, p + "```json" + q);
  }

  lemma CleanDeletesRejoined(p: string, q: string)
    requires JsonOpen(p) && JsonClose(q)
    ensures CleanJsonResponse(p + "```json" + q) == p + q
  {
    RejoinSecondPass(p, q);
    BracedJoin(p, [], q);
    assert p + [] + q == p + q;
    BracedSurvivesLaterSteps(p + "```json" + q, p + q);
  }

  /** Cleaning is not idempotent, even on valid JSON: deleting a "```json"
      inside a string value can join the characters around it into another
      one, which the next cleaning deletes. */
  lemma CleanNotIdempotent(p: string, q: string)
    requires JsonOpen(p) && JsonClose(q)
    ensures CleanJsonResponse(p + "`````json`json" + q) == p + "```json" + q
    ensures CleanJsonResponse(p + "```json" + q) == p + q
    ensures p + "```json" + q != p + q
  {
    CleanRejoins(p, q);
    CleanDeletesRejoined(p, q);
    assert |p + "```json" + q| == |p + q| + 7;
  }

  /** The JSON text {"a":"`````json`json"} is one such input. */
  lemma CleanNotIdempotentExample(p: string, q: string)
    requires p == "{\"a\":\"" && q == "\"}"
    ensures CleanJsonResponse(p + "`````json`json" + q) == p + "```json" + q
    ensures CleanJsonResponse(CleanJsonResponse(p + "`````json`json" + q)) != CleanJsonResponse(p + "`````json`json" + q)
  {
    assert JsonOpen(p) && JsonClose(q);
    CleanNotIdempotent(p, q);
  }

  // ---------------------------------------------------------------- regex fallback

  /** `text.match(/\{[\s\S]*\}/)`: the leftmost "{" that has a "}" somewhere
      after it, up to the last "}" of the text (the star is greedy). */
  function GreedyBraceMatch(s: string): (m: Option<string>)
    ensures m.Some? <==> HasPairBefore(s, '{', '}')
    ensures m.Some? ==> m.value == SliceBraces(s)
  {
    if s == [] then None
    else if s[0] == '{' && LastIndexOf(s, '}') > 0 then
      assert HasPairBefore(s, '{', '}') by { assert s[LastIndexOf(s, '}')] == '}'; }
      SliceBracesSpans(s);
      Some(s[..LastIndexOf(s, '}') + 1])
    else
      var m := GreedyBraceMatch(s[1..]);
      PairInTail(s);
      if m.Some? then
        SliceBracesTail(s);
        m
      else m
  }

  /** Without a usable "{" in front, a pair lies in the rest of the text. */
  lemma PairInTail(s: string)
    requires s != [] && !(s[0] == '{' && LastIndexOf(s, '}') > 0)
    ensures HasPairBefore(s, '{', '}') <==> HasPairBefore(s[1..], '{', '}')
  {
    if HasPairBefore(s, '{', '}') {
      var i, j :| 0 <= i < j < |s| && s[i] == '{' && s[j] == '}';
      LastIndexOfLast(s, '}', j);
      assert s[1..][i - 1] == '{' && s[1..][j - 1] == '}';
    }
    if HasPairBefore(s[1..], '{', '}') {
      var i, j :| 0 <= i < j < |s[1..]| && s[1..][i] == '{' && s[1..][j] == '}';
      assert s[i + 1] == '{' && s[j + 1] == '}';
    }
  }

  /** Slicing ignores a first character that cannot start the match. */
  lemma SliceBracesTail(s: string)
    requires s != [] && !(s[0] == '{' && LastIndexOf(s, '}') > 0)
    requires HasPairBefore(s[1..], '{', '}')
    ensures SliceBraces(s) == SliceBraces(s[1..])
  {
    var t := s[1..];
    SliceBracesSpans(t);
    var f, l := IndexOf(t, '{'), LastIndexOf(t, '}');
    TailIndices(s, f, l);
    SliceBracesAt(s, f + 1, l + 1);
    SliceBracesAt(t, f, l);
    SliceOfTail(s, f + 1, l + 2);
  }

  /** Slicing with the brace positions known. */
  lemma SliceBracesAt(t: string, f: int, l: int)
    requires 0 <= f < l && f == IndexOf(t, '{') && l == LastIndexOf(t, '}')
    ensures SliceBraces(t) == t[f..l + 1]
  {
  }

  lemma SliceOfTail(s: string, i: int, j: int)
    requires 1 <= i <= j <= |s|
    ensures s[i..j] == s[1..][i - 1..j - 1]
  {
    assert forall k :: 0 <= k < j - i ==> s[i..j][k] == s[i + k] == s[1..][i - 1..j - 1][k];
  }

  /** Both brace positions move by one when a first character that cannot
      start the match is put in front. */
  lemma TailIndices(s: string, f: int, l: int)
    requires s != [] && !(s[0] == '{' && LastIndexOf(s, '}') > 0)
    requires 0 <= f < l && f == IndexOf(s[1..], '{') && l == LastIndexOf(s[1..], '}')
    ensures IndexOf(s, '{') == f + 1 && LastIndexOf(s, '}') == l + 1
  {
    LastIndexOfTail(s, '}', l);
  }

  lemma {:induction false} LastIndexOfTail(s: string, c: char, j: nat)
    requires j < |s| - 1 && s[j + 1] == c
    ensures LastIndexOf(s, c) == LastIndexOf(s[1..], c) + 1
  {
    if s[|s| - 1] != c {
      var s' := s[..|s| - 1];
      assert s'[1..] == s[1..][..|s| - 2];
      LastIndexOfTail(s', c, j);
    }
  }

  // ---------------------------------------------------------------- parse fallback

  /** What `validateIdea` obtains from a reply text, given `JSON.parse` as
      `parse` (None when it throws): parse the cleaned text; when that throws,
      parse the greedy brace match of the raw text; with no match, or when the
      second parse throws too, an error is raised (None). */
  function RecoverReport(raw: string, parse: string -> Option<ValidationResult>): (o: Option<ValidationResult>)
    ensures parse(CleanJsonResponse(raw)).Some? ==> o == parse(CleanJsonResponse(raw))
    ensures o.Some? ==>
      o == parse(CleanJsonResponse(raw)) || (HasPairBefore(raw, '{', '}') && o == parse(SliceBraces(raw)))
  {
    match parse(CleanJsonResponse(raw))
    case Some(v) => Some(v)
    case None =>
      match GreedyBraceMatch(raw)
      case None => None
      case Some(m) => parse(m)
  }

  /** The fallback cases one by one: a cleaned text that parses is kept; when it
      does not parse, the raw reply is retried on its first-"{"-to-last-"}"
      span if it has one; otherwise nothing is recovered. */
  lemma RecoverReportCases(raw: string, parse: string -> Option<ValidationResult>)
    ensures parse(CleanJsonResponse(raw)).Some? ==> RecoverReport(raw, parse) == parse(CleanJsonResponse(raw))
    ensures parse(CleanJsonResponse(raw)).None? && HasPairBefore(raw, '{', '}') ==>
      RecoverReport(raw, parse) == parse(SliceBraces(raw))
    ensures parse(CleanJsonResponse(raw)).None? && !HasPairBefore(raw, '{', '}') ==>
      RecoverReport(raw, parse) == None
  {
  }

  /** A parser that only accepts JSON objects accepts nothing without a "{". */
  ghost predicate ParsesOnlyObjects(parse: string -> Option<ValidationResult>) {
    forall s :: parse(s).Some? ==> '{' in s
  }

  /** A reply without any "{" ends in the error path ("No valid JSON found"). */
  lemma NoBraceIsMalformed(raw: string, parse: string -> Option<ValidationResult>)
    requires ParsesOnlyObjects(parse)
    requires '{' !in raw
    ensures RecoverReport(raw, parse) == None
  {
    NoBraceCleansBraceFree(raw);
    NoBraceNoMatch(raw);
    assert parse(CleanJsonResponse(raw)) == None;
  }

  lemma NoBraceCleansBraceFree(raw: string)
    requires '{' !in raw
    ensures '{' !in CleanJsonResponse(raw)
  {
    StripFencesKeepAbsence(raw, '{');
    assert IndexOf(StripFences(raw), '{') == -1;
  }

  lemma NoBraceNoMatch(raw: string)
    requires '{' !in raw
    ensures GreedyBraceMatch(raw) == None
  {
    assert forall i :: 0 <= i < |raw| ==> raw[i] != '{';
  }

  /** On a reply that the fence clean-up leaves unchanged, the regex retry
      parses exactly the text the first attempt parsed, so it never rescues
      a reply the first attempt rejected. */
  lemma FallbackRepeatsCleanedText(raw: string, parse: string -> Option<ValidationResult>)
    requires StripFences(raw) == raw
    ensures RecoverReport(raw, parse) == parse(CleanJsonResponse(raw))
  {
    if HasPairBefore(raw, '{', '}') {
      assert GreedyBraceMatch(raw) == Some(CleanJsonResponse(raw));
    }
  }

  // ---------------------------------------------------------------- score colour

  /** `getScoreColor`: the text colour of a score, by band. */
  function ScoreColor(score: int): (c: string)
    ensures c == "text-green-600" <==> ScoreBand(score) == High
    ensures c == "text-yellow-600" <==> ScoreBand(score) == Middle
    ensures c == "text-red-600" <==> ScoreBand(score) == Low
  {
    if score >= 80 then "text-green-600"
    else if score >= 60 then "text-yellow-600"
    else "text-red-600"
  }

  /** Colour and badge always name the same band. */
  lemma ColorMatchesBadge(score: int)
    ensures ScoreColor(score) == "text-green-600" <==> BadgeVariant(score) == "default"
    ensures ScoreColor(score) == "text-yellow-600" <==> BadgeVariant(score) == "secondary"
    ensures ScoreColor(score) == "text-red-600" <==> BadgeVariant(score) == "destructive"
  {
  }

  // ---------------------------------------------------------------- submission

  /** The row `validateIdea` inserts into the `validations` table. */
  datatype InsertRow = InsertRow(
    userId: string,
    ideaTitle: string,
    ideaDescription: string,
    formData: IdeaForm,
    validationResult: ValidationResult,
    overallScore: int)

  /** The row for a recovered report: the denormalised columns repeat the
      form's title and description and the report's overall score. */
  function RowFor(userId: string, form: IdeaForm, report: ValidationResult): (row: InsertRow)
    ensures row.userId == userId && row.formData == form && row.validationResult == report
    ensures row.ideaTitle == row.formData.ideaTitle && row.ideaDescription == row.formData.ideaDescription
    ensures row.overallScore == row.validationResult.overallScore
  {
    InsertRow(userId, form.ideaTitle, form.ideaDescription, form, report, report.overallScore)
  }

  /** What the route's reply looks like from the browser: the request failed,
      the status was not ok, the body was not JSON, or the body's `result`
      field (None when it is not a string). */
  datatype ApiReply =
    | Unreachable
    | HttpError(status: int)
    | UnreadableBody
    | Delivered(result: Option<string>)

  /** The toast shown at the end of a submission. */
  datatype Notice = MissingFields | Validated | ValidationFailed

  /** The report a reply yields, or None when `validateIdea` ends in its catch. */
  function ReplyReport(reply: ApiReply, parse: string -> Option<ValidationResult>): (o: Option<ValidationResult>)
    ensures o.Some? ==> reply.Delivered? && reply.result.Some? && o == RecoverReport(reply.result.value, parse)
    ensures reply.Delivered? && reply.result.Some? ==> o == RecoverReport(reply.result.value, parse)
  {
    if reply.Delivered? && reply.result.Some? then RecoverReport(reply.result.value, parse) else None
  }

  /** A delivered `result` text yields exactly what recovering it yields. */
  lemma DeliveredReplyIsRecovered(t: string, parse: string -> Option<ValidationResult>)
    ensures ReplyReport(Delivered(Some(t)), parse) == RecoverReport(t, parse)
  {
  }

  /** Only a delivered text can produce a report. */
  lemma FailedRepliesYieldNothing(reply: ApiReply, parse: string -> Option<ValidationResult>)
    requires !reply.Delivered? || reply.result.None?
    ensures ReplyReport(reply, parse) == None
  {
  }

  /** Reading the route's reply in `validateIdea`, step by step as the
      component does: a failed reply throws; otherwise the inner
      `try`/`catch` parses the cleaned text and, when that throws, the raw
      text's brace span. Proved to compute the function `ReplyReport`. */
  method ParseReply(reply: ApiReply, parse: string -> Option<ValidationResult>) returns (parsed: Option<ValidationResult>)
    ensures parsed == ReplyReport(reply, parse)
  {
    parsed := None;
    if reply.Delivered? && reply.result.Some? {
      var raw := reply.result.value;
      parsed := parse(CleanJsonResponse(raw));
      if parsed.None? {
        var jsonMatch := GreedyBraceMatch(raw);
        if jsonMatch.Some? {
          parsed := parse(jsonMatch.value);
        }
      }
    }
  }

  /** The state of the `IdeaValidator` component. */
  class Validator {
    var formData: IdeaForm
    var loading: bool
    var result: Option<ValidationResult>

    constructor()
      ensures formData == EmptyForm && !loading && result == None
    {
      formData := EmptyForm;
      loading := false;
      result := None;
    }

    /** `handleInputChange`: one input takes a new value. */
    method HandleInputChange(field: Field, value: string)
      modifies this
      ensures formData == With(old(formData), field, value)
      ensures loading == old(loading) && result == old(result)
    {
      formData := With(formData, field, value);
    }

    /** `validateIdea` for one reply of the route. Returns the prompt it
        posts (None when it returns early), the row it inserts, and the
        toast. An insert error (`saveFailed`) is only logged. */
    method ValidateIdea(userId: string, reply: ApiReply, parse: string -> Option<ValidationResult>, saveFailed: bool)
      returns (request: Option<string>, insert: Option<InsertRow>, notice: Notice)
      modifies this
      ensures formData == old(formData)
      ensures !CanSubmit(old(formData)) ==>
        request == None && insert == None && notice == MissingFields
        && result == old(result) && loading == old(loading)
      ensures CanSubmit(old(formData)) ==> request == Some(BuildPrompt(old(formData))) && !loading
      ensures CanSubmit(old(formData)) && ReplyReport(reply, parse).Some? ==>
        && result == ReplyReport(reply, parse)
        && insert == Some(RowFor(userId, old(formData), ReplyReport(reply, parse).value))
        && notice == Validated
      ensures CanSubmit(old(formData)) && ReplyReport(reply, parse).None? ==>
        result == old(result) && insert == None && notice == ValidationFailed
    {
      if !CanSubmit(formData) {
        return None, None, MissingFields;
      }
      loading := true;
      request := Some(BuildPrompt(formData));
      var parsed := ParseReply(reply, parse);
      insert, notice := Conclude(userId, parsed, saveFailed);
    }

    /** The rest of `validateIdea` once the reply is read: store the report
        and insert its row, pick the toast, and clear `loading` in the
        `finally` block. `saveFailed` is the insert's outcome and is ignored
        on purpose: the component only logs an insert error and still
        shows the success toast. */
    method Conclude(userId: string, parsed: Option<ValidationResult>, saveFailed: bool)
      returns (insert: Option<InsertRow>, notice: Notice)
      modifies this
      ensures formData == old(formData) && !loading
      ensures parsed.Some? ==>
        result == parsed && insert == Some(RowFor(userId, formData, parsed.value)) && notice == Validated
      ensures parsed.None? ==> result == old(result) && insert == None && notice == ValidationFailed
    {
      insert := None;
      if parsed.Some? {
        result := parsed;
        insert := Some(RowFor(userId, formData, parsed.value));
        // The insert's error is logged and the success toast shown either way.
        notice := Validated;
      } else {
        notice := ValidationFailed;
      }
      loading := false;
    }
  }
}
