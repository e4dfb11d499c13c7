/** Text analysis of a tank description: the Express server's `POST /api/analyze` and the
    edge function `analyze`. Both ask a language model (or a mock) for a JSON text,
    normalise it into a score, a breakdown and a summary, and fall back to the raw text
    when it does not parse. */
module Analysis {
  import opened Wrappers
  import opened Text
  import opened Json
  import opened Http

  /** The breakdown fields, in the order the summary lists them, and their headings. */
  const BreakdownKeys: seq<string> := ["equipment", "waterParams", "livestock", "recommendations"]
  const Headings: seq<string> := ["Equipment: ", "Water Parameters: ", "Livestock: ", "Recommendations: "]
  const SectionSeparator := "\n\n"

  const NoSummary := "Unable to analyze setup " + "properly."
  const NoAssessment := "Assessment not available. " + "Please try again."
  const Unavailable := "Analysis unavailable."
  const MissingDescription := "tankDescription is required"
  const DefaultScore: Json := JNum(50.0)
  /** How much of an unparseable reply the fallback keeps. */
  const FallbackLength := 960

  /** The normalised analysis a handler sends. `generalAssessment` is produced by the edge
      function only; `error` only by its soft fallback. */
  datatype Analysis = Analysis(
    score: Json,
    generalAssessment: Option<Json>,
    breakdown: Json,
    summary: string,
    result: string,
    error: Option<string>)

  /** What the model produced: the mock object the handler serializes itself (and which
      therefore parses back to the same object), or the text of the provider's reply. */
  datatype ModelOutput = Serialized(fields: map<string, Json>) | Generated(text: string)

  /** Entry `i` of the four-element array the summary is built from: heading and text when the
      field is truthy, otherwise the empty string. */
  function SummaryEntry(breakdown: Json, i: nat, fmt: real -> string): string
    requires i < 4
  {
    var f := Member(breakdown, BreakdownKeys[i]);
    if Present(f) then Headings[i] + ToText(f.value, fmt) else ""
  }

  /** A field's line of the summary is written exactly when the field is truthy. */
  lemma SummaryEntryIff(breakdown: Json, i: nat, fmt: real -> string)
    requires i < 4
    ensures SummaryEntry(breakdown, i, fmt) != [] <==> Present(Member(breakdown, BreakdownKeys[i]))
  {
    if Present(Member(breakdown, BreakdownKeys[i])) {
      assert |Headings[i]| > 0;
    }
  }

  function SummaryEntries(breakdown: Json, fmt: real -> string): (r: seq<string>)
    ensures |r| == 4
  {
    [SummaryEntry(breakdown, 0, fmt), SummaryEntry(breakdown, 1, fmt),
     SummaryEntry(breakdown, 2, fmt), SummaryEntry(breakdown, 3, fmt)]
  }

  /** The readable summary of a breakdown: the present entries joined by blank lines. */
  function FormatSummary(breakdown: Json, fmt: real -> string): string {
    Join(KeepNonEmpty(SummaryEntries(breakdown, fmt)), SectionSeparator)
  }

  /** The summary is empty exactly when none of the four breakdown fields is truthy. */
  lemma SummaryEmptyIff(breakdown: Json, fmt: real -> string)
    ensures FormatSummary(breakdown, fmt) == []
        <==> forall i :: 0 <= i < 4 ==> !Present(Member(breakdown, BreakdownKeys[i]))
  {
    var entries := SummaryEntries(breakdown, fmt);
    var kept := KeepNonEmpty(entries);
    JoinEmpty(kept, SectionSeparator);
    if exists i :: 0 <= i < 4 && Present(Member(breakdown, BreakdownKeys[i])) {
      var i :| 0 <= i < 4 && Present(Member(breakdown, BreakdownKeys[i]));
      assert entries[i] in entries && entries[i] != [];
    } else {
      assert entries == [[], [], [], []];
      assert kept == [];
    }
  }

  /** Every truthy breakdown field appears in the summary under its heading. */
  lemma SummaryMentionsField(breakdown: Json, fmt: real -> string, i: nat)
    requires i < 4 && Present(Member(breakdown, BreakdownKeys[i]))
    ensures Contains(FormatSummary(breakdown, fmt),
                     Headings[i] + ToText(Member(breakdown, BreakdownKeys[i]).value, fmt))
  {
    var entries := SummaryEntries(breakdown, fmt);
    var kept := KeepNonEmpty(entries);
    var e := entries[i];
    assert e in entries && e != [];
    var k :| 0 <= k < |kept| && kept[k] == e;
    JoinHasPart(kept, SectionSeparator, k);
    ContainsIff(FormatSummary(breakdown, fmt), e);
  }

  /** `JSON.parse(text || '{}')`. */
  function ParseText(text: string, parse: string -> ParseOutcome): ParseOutcome {
    if text == [] then Parsed(EmptyObject) else parse(text)
  }

  /** The output parses to a value whose properties can be read (anything but `null`). */
  predicate Structured(out: ModelOutput, parse: string -> ParseOutcome) {
    match out
    case Serialized(_) => true
    case Generated(text) =>
      var p := ParseText(text, parse);
      p.Parsed? && !p.value.JNull?
  }

  /** The value a structured output parses to. */
  function ParsedValue(out: ModelOutput, parse: string -> ParseOutcome): (v: Json)
    requires Structured(out, parse)
    ensures !v.JNull?
  {
    match out
    case Serialized(fields) => JObj(fields)
    case Generated(text) => ParseText(text, parse).value
  }

  /** The normalised analysis of a parsed reply. */
  function FromParsed(v: Json, fmt: real -> string, withAssessment: bool): Analysis
    requires !v.JNull?
  {
    var breakdown := OrElse(Member(v, "breakdown"), EmptyObject);
    var summary := FormatSummary(breakdown, fmt);
    var text := if summary == [] then NoSummary else summary;
    Analysis(
      OrElse(Member(v, "score"), DefaultScore),
      if withAssessment then Some(OrElse(Member(v, "generalAssessment"), JStr(NoAssessment))) else None,
      breakdown, text, text, None)
  }

  /** The analysis sent when the reply is not JSON: score 50, empty breakdown, and the
      reply's first 960 characters as summary and result. */
  function Fallback(text: string): Analysis {
    var kept := Take(text, FallbackLength);
    var shown := if kept == [] then Unavailable else kept;
    Analysis(DefaultScore, None, EmptyObject, shown, shown, None)
  }

  /** Normalisation of the model's output. `withAssessment` selects the edge function's
      variant, which also passes on a general assessment. */
  function Normalize(out: ModelOutput, parse: string -> ParseOutcome, fmt: real -> string,
                     withAssessment: bool): (a: Analysis)
    ensures a.summary == a.result && a.summary != []
    ensures Truthy(a.score) && Truthy(a.breakdown) && a.error.None?
    ensures a.generalAssessment.Some? <==> withAssessment && Structured(out, parse)
    ensures a.generalAssessment.Some? ==> Truthy(a.generalAssessment.value)
    ensures Structured(out, parse) ==>
      a.summary == (if FormatSummary(a.breakdown, fmt) == [] then NoSummary else FormatSummary(a.breakdown, fmt))
    ensures Structured(out, parse) ==>
      var v := ParsedValue(out, parse);
      && (Present(Member(v, "score")) ==> a.score == Member(v, "score").value)
      && (!Present(Member(v, "score")) ==> a.score == DefaultScore)
      && (Present(Member(v, "breakdown")) ==> a.breakdown == Member(v, "breakdown").value)
      && (!Present(Member(v, "breakdown")) ==> a.breakdown == EmptyObject)
      && (withAssessment && Present(Member(v, "generalAssessment")) ==>
            a.generalAssessment == Some(Member(v, "generalAssessment").value))
      && (withAssessment && !Present(Member(v, "generalAssessment")) ==>
            a.generalAssessment == Some(JStr(NoAssessment)))
    ensures !Structured(out, parse) ==>
      out.Generated? && out.text != [] && |a.summary| <= FallbackLength
      && a.summary == Take(out.text, FallbackLength)
      && a.score == DefaultScore && a.breakdown == EmptyObject
  {
    match out
    case Serialized(fields) => FromParsed(JObj(fields), fmt, withAssessment)
    case Generated(text) =>
      var p := ParseText(text, parse);
      if p.Parsed? && !p.value.JNull? then FromParsed(p.value, fmt, withAssessment)
      else Fallback(text)
  }

  /** A provider reply that parses to an object is normalised exactly like that object
      serialized by the handler itself. */
  lemma GeneratedLikeSerialized(text: string, fields: map<string, Json>, parse: string -> ParseOutcome,
                                fmt: real -> string, withAssessment: bool)
    requires text != [] && parse(text) == Parsed(JObj(fields))
    ensures Normalize(Generated(text), parse, fmt, withAssessment)
         == Normalize(Serialized(fields), parse, fmt, withAssessment)
  {
  }

  /** An empty reply reads as `{}`: every field takes its default. */
  lemma EmptyReplyDefaults(parse: string -> ParseOutcome, fmt: real -> string, withAssessment: bool)
    ensures var a := Normalize(Generated([]), parse, fmt, withAssessment);
            && a.score == DefaultScore && a.breakdown == EmptyObject
            && a.summary == NoSummary && a.result == NoSummary
            && (withAssessment ==> a.generalAssessment == Some(JStr(NoAssessment)))
  {
    var a := Normalize(Generated([]), parse, fmt, withAssessment);
    SummaryEmptyIff(EmptyObject, fmt);
  }

  /** The fields of an analysis as the client receives them. */
  function AsFields(a: Analysis): map<string, Json> {
    var base := map["score" := a.score, "breakdown" := a.breakdown,
                    "summary" := JStr(a.summary), "result" := JStr(a.result)];
    if a.generalAssessment.Some? then base["generalAssessment" := a.generalAssessment.value] else base
  }

  /** Normalising an already normalised structured analysis changes nothing: the score, the
      breakdown and the assessment are kept and the summary is rebuilt to the same text. */
  lemma NormalizeIdempotent(out: ModelOutput, parse: string -> ParseOutcome, fmt: real -> string,
                            withAssessment: bool)
    requires Structured(out, parse)
    ensures var a := Normalize(out, parse, fmt, withAssessment);
            Normalize(Serialized(AsFields(a)), parse, fmt, withAssessment) == a
  {
    var a := Normalize(out, parse, fmt, withAssessment);
    var v := JObj(AsFields(a));
    assert Member(v, "breakdown") == Some(a.breakdown);
    assert Member(v, "score") == Some(a.score);
    if withAssessment {
      assert Member(v, "generalAssessment") == a.generalAssessment;
    }
  }

  /** The server's and the edge function's configuration: mock replies are used when no
      provider key is set or `USE_MOCK_AI` is `'true'`. */
  datatype Env = Env(openAiApiKey: Option<string>, useMockAi: Option<string>)

  predicate UseMock(env: Env) {
    env.openAiApiKey.None? || env.openAiApiKey.value == [] || env.useMockAi == Some("true")
  }

  /** `Math.floor(Math.random() * n)` for the draws the handlers make. */
  type MockDraw = k: nat | k < 40
  type AssessmentDraw = j: nat | j < 3
  type FallbackDraw = f: nat | f < 30

  const MockBreakdown: map<string, Json> := map[
    "equipment" := JStr("Good filtration and lighting " + "setup. Consider upgrading " + "protein skimmer for better " + "water quality."),
    "waterParams" := JStr("pH and salinity are within " + "acceptable range. Monitor " + "alkalinity and calcium levels " + "regularly."),
    "livestock" := JStr("Current fish selection shows " + "good compatibility. Avoid " + "aggressive species in this " + "setup."),
    "recommendations" := JStr("Add wave makers for better " + "circulation. Consider gradual " + "coral additions starting with " + "hardy LPS species.")]

  /** The edge function's three canned general assessments. */
  const Assessment0 :=
    "Excellent reef setup with " +
    "balanced livestock and proper " +
    "equipment. Lighting supports " +
    "coral growth, filtration " +
    "maintains quality water. Fish " +
    "compatibility is strong. " +
    "Consider calcium reactor for " +
    "long-term coral health. " +
    "Bioload sustainable with " +
    "expansion room. Well-planned " +
    "setup for healthy growth and " +
    "behavior. Regular maintenance " +
    "ensures success. Strong " +
    "foundation for reef keeping."
  const Assessment1 :=
    "Solid fundamentals with " +
    "improvement potential. Fish " +
    "selection diverse, avoiding " +
    "aggression. Lighting adequate " +
    "for moderate corals - upgrade " +
    "for SPS growth. Add flow " +
    "pumps to eliminate dead " +
    "spots. Stable biological " +
    "filtration processing waste " +
    "well. Consider backup " +
    "heating. Match feeding to " +
    "bioload. Excellent foundation " +
    "for reef success and coral " +
    "propagation."
  const Assessment2 :=
    "Thoughtful marine ecosystem " +
    "design with balanced " +
    "equipment. Livestock promotes " +
    "natural behaviors, minimizes " +
    "stress. Healthy biological " +
    "processes with effective " +
    "nutrient export. Lighting " +
    "supports coral cycles. " +
    "Consider refugium for natural " +
    "processing. Regular testing " +
    "prevents parameter drift. " +
    "Strong foundation for " +
    "long-term success and gradual " +
    "expansion."

  function MockAssessment(j: AssessmentDraw): (r: string)
    ensures r != []
  {
    if j == 0 then Assessment0 else if j == 1 then Assessment1 else Assessment2
  }

  /** The server's mock: a score of 60 to 99 and the canned breakdown. */
  function ServerMock(k: MockDraw): ModelOutput {
    Serialized(map["score" := JNum((k + 60) as real), "breakdown" := JObj(MockBreakdown)])
  }

  /** The edge function's mock adds one of three canned general assessments. */
  function EdgeMock(k: MockDraw, j: AssessmentDraw): ModelOutput {
    Serialized(map["score" := JNum((k + 60) as real),
                   "generalAssessment" := JStr(MockAssessment(j)),
                   "breakdown" := JObj(MockBreakdown)])
  }

  /** The server's provider call through the vendor SDK: it throws, or yields the message
      content, which may be missing. */
  datatype SdkReply = SdkThrew(message: string) | SdkContent(content: Option<string>)

  /** `POST /api/analyze` on the server. `body` is the parsed request body. */
  function AnalyzeServer(body: Json, env: Env, k: MockDraw, call: SdkReply,
                         parse: string -> ParseOutcome, fmt: real -> string): (r: Reply<Analysis>)
    ensures r.Status() in {200, 400, 500}
    ensures r.Err? && r.status == 400 <==> !body.JNull? && !Present(Member(body, "tankDescription"))
    ensures r.Err? && r.status == 400 ==> r.message == MissingDescription
    ensures r.Ok? ==> r.body.generalAssessment.None? && r.body.error.None?
    ensures r.Err? && r.status == 500 ==> body.JNull? || (!UseMock(env) && call.SdkThrew?)
    ensures !body.JNull? && Present(Member(body, "tankDescription")) && UseMock(env) ==>
      r.Ok? && r.body.score == JNum((k + 60) as real)
    ensures body.JNull? ==> r == Err(500, RuntimeError)
    ensures !body.JNull? && Present(Member(body, "tankDescription")) ==>
      if UseMock(env) then r == Ok(Normalize(ServerMock(k), parse, fmt, false))
      else if call.SdkThrew? then r == Err(500, call.message)
      else r == Ok(Normalize(Generated(call.content.GetOr("")), parse, fmt, false))
  {
    if body.JNull? then Err(500, RuntimeError)
    else if !Present(Member(body, "tankDescription")) then Err(400, MissingDescription)
    else if UseMock(env) then Ok(Normalize(ServerMock(k), parse, fmt, false))
    else
      match call
      case SdkThrew(m) => Err(500, m)
      case SdkContent(c) => Ok(Normalize(Generated(c.GetOr("")), parse, fmt, false))
  }

  /** The summary sections of the server's mock, one per canned field, in order. */
  function MockSections(): (r: seq<string>)
    ensures |r| == 4
  {
    seq(4, i requires 0 <= i < 4 => Headings[i] + MockBreakdown[BreakdownKeys[i]].s)
  }

  /** Every breakdown key is a field of the canned breakdown, holding a string. */
  lemma MockBreakdownHasKeys()
    ensures forall i :: 0 <= i < 4 ==> BreakdownKeys[i] in MockBreakdown && MockBreakdown[BreakdownKeys[i]].JStr?
  {
    assert BreakdownKeys == ["equipment", "waterParams", "livestock", "recommendations"];
  }

  /** The summary of the canned breakdown holds its four fields in order. */
  lemma MockBreakdownSummary(fmt: real -> string)
    ensures FormatSummary(JObj(MockBreakdown), fmt) == Join(MockSections(), SectionSeparator) != []
  {
    var b := JObj(MockBreakdown);
    var entries := SummaryEntries(b, fmt);
    MockBreakdownHasKeys();
    forall i | 0 <= i < 4 ensures entries[i] == MockSections()[i] {
      assert SummaryEntry(b, i, fmt) == MockSections()[i];
    }
    assert entries == MockSections();
    KeepAllNonEmpty(entries);
    JoinEmpty(entries, SectionSeparator);
  }

  /** The mock reply lists all four canned fields in the summary, in order. */
  lemma ServerMockSummary(k: MockDraw, parse: string -> ParseOutcome, fmt: real -> string)
    ensures Normalize(ServerMock(k), parse, fmt, false).summary == Join(MockSections(), SectionSeparator)
  {
    var fields := ServerMock(k).fields;
    assert "breakdown" in fields && fields["breakdown"] == JObj(MockBreakdown);
    SerializedKept(fields, parse, fmt, false);
    MockBreakdownSummary(fmt);
  }

  /** An object the handler serialized itself passes its truthy score, breakdown and
      general assessment through normalisation unchanged. */
  lemma SerializedKept(fields: map<string, Json>, parse: string -> ParseOutcome, fmt: real -> string,
                       withAssessment: bool)
    ensures var a := Normalize(Serialized(fields), parse, fmt, withAssessment);
            && ("score" in fields && Truthy(fields["score"]) ==> a.score == fields["score"])
            && ("breakdown" in fields && Truthy(fields["breakdown"]) ==> a.breakdown == fields["breakdown"])
            && (withAssessment && "generalAssessment" in fields && Truthy(fields["generalAssessment"]) ==>
                  a.generalAssessment == Some(fields["generalAssessment"]))
  {
    var v := JObj(fields);
    assert "score" in fields ==> Member(v, "score") == Some(fields["score"]);
    assert "breakdown" in fields ==> Member(v, "breakdown") == Some(fields["breakdown"]);
    assert "generalAssessment" in fields ==> Member(v, "generalAssessment") == Some(fields["generalAssessment"]);
  }

  /** In mock mode the provider is never consulted: the reply is the same whatever it
      would have answered. */
  lemma ServerMockIgnoresProvider(body: Json, env: Env, k: MockDraw, c1: SdkReply, c2: SdkReply,
                                  parse: string -> ParseOutcome, fmt: real -> string)
    requires UseMock(env)
    ensures AnalyzeServer(body, env, k, c1, parse, fmt) == AnalyzeServer(body, env, k, c2, parse, fmt)
  {
  }

  /** The edge function's provider call over `fetch`: it throws, answers with a non-2xx
      status, or yields the message content, which may be missing. A reply body of `null`
      makes the content read throw and is modelled as `FetchThrew`. */
  datatype FetchReply = FetchThrew(message: string) | NotOk(status: nat) | Completed(content: Option<string>)

  const SoftFallbackText := "Analysis service temporarily " + "unavailable. This is a " + "fallback response."
  const SoftFallbackError := "Analysis temporarily " + "unavailable"
  const SoftBreakdown: map<string, Json> := map[
    "equipment" := JStr("Analysis temporarily " + "unavailable. Basic setup " + "detected."),
    "waterParams" := JStr("Unable to analyze water " + "parameters at this time."),
    "livestock" := JStr("Livestock compatibility check " + "unavailable."),
    "recommendations" := JStr("Please try again later or " + "contact support.")]

  /** The edge function's answer to any exception: status 200 with a random score and a
      canned breakdown. */
  function SoftFallback(f: FallbackDraw): Analysis {
    Analysis(JNum((f + 50) as real), None, JObj(SoftBreakdown), SoftFallbackText, SoftFallbackText,
             Some(SoftFallbackError))
  }

  /** The edge function `analyze`. `body` is `None` when the request body is not JSON. */
  function AnalyzeEdge(verb: Method, body: Option<Json>, env: Env, k: MockDraw, j: AssessmentDraw,
                       f: FallbackDraw, call: FetchReply, parse: string -> ParseOutcome,
                       fmt: real -> string): (r: Reply<Analysis>)
    ensures r.Preflight? <==> verb == Options
    ensures r.Err? ==> r.status == 400 && r.message == MissingDescription
    ensures r.Err? <==> verb != Options && body.Some? && !body.value.JNull?
                        && !Present(Member(body.value, "tankDescription"))
    ensures r.Ok? && r.body.error.Some? ==> r.body == SoftFallback(f)
    ensures r.Ok? && r.body.error.None? ==> r.body.summary != [] && r.body.summary == r.body.result
    ensures verb != Options && (body.None? || body.value.JNull?) ==> r == Ok(SoftFallback(f))
    ensures verb != Options && body.Some? && !body.value.JNull? && Present(Member(body.value, "tankDescription")) ==>
      if UseMock(env) then r == Ok(Normalize(EdgeMock(k, j), parse, fmt, true))
      else if call.Completed? then r == Ok(Normalize(Generated(call.content.GetOr("")), parse, fmt, true))
      else r == Ok(SoftFallback(f))
  {
    if verb == Options then Preflight
    else if body.None? || body.value.JNull? then Ok(SoftFallback(f))
    else if !Present(Member(body.value, "tankDescription")) then Err(400, MissingDescription)
    else if UseMock(env) then Ok(Normalize(EdgeMock(k, j), parse, fmt, true))
    else
      match call
      case Completed(c) => Ok(Normalize(Generated(c.GetOr("")), parse, fmt, true))
      case _ => Ok(SoftFallback(f))
  }

  /** The mock reply carries the drawn score and the drawn canned assessment. */
  lemma EdgeMockNormal(k: MockDraw, j: AssessmentDraw, parse: string -> ParseOutcome, fmt: real -> string)
    ensures var a := Normalize(EdgeMock(k, j), parse, fmt, true);
            a.score == JNum((k + 60) as real) && a.generalAssessment == Some(JStr(MockAssessment(j)))
  {
    SerializedKept(EdgeMock(k, j).fields, parse, fmt, true);
  }

  /** The edge function never answers with a server error, and every score it invents lies
      in its stated range: 60 to 99 for the mock, 50 to 79 for the soft fallback. */
  lemma EdgeNeverFails(verb: Method, body: Option<Json>, env: Env, k: MockDraw, j: AssessmentDraw,
                       f: FallbackDraw, call: FetchReply, parse: string -> ParseOutcome,
                       fmt: real -> string)
    ensures var r := AnalyzeEdge(verb, body, env, k, j, f, call, parse, fmt);
            r.Status() in {200, 400}
            && (r.Ok? && r.body.error.Some? ==> r.body.score.JNum? && 50.0 <= r.body.score.n <= 79.0)
            && (r.Ok? && UseMock(env) && r.body.error.None? ==>
                  r.body.score.JNum? && 60.0 <= r.body.score.n <= 99.0
                  && r.body.generalAssessment == Some(JStr(MockAssessment(j))))
  {
    if verb != Options && body.Some? && !body.value.JNull? && Present(Member(body.value, "tankDescription"))
       && UseMock(env) {
      EdgeMockNormal(k, j, parse, fmt);
    }
  }
}
