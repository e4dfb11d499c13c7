/** Analysis of tank photos: the edge function `analyze-image` (a photo sent with the
    request) and `analyze-saved-image` (a photo from the user's gallery, with the result
    stored). Unlike the text analysis, both return the model's JSON as it is. */
module ImageAnalysis {
  import opened Wrappers
  import opened Text
  import opened Json
  import opened Http
  import opened Uploads
  import opened Patterns
  import Analysis
  import Gallery

  const MockAssessment := "This is a mock analysis of " + "your tank image. Your setup " + "shows good potential with " + "room for improvement in " + "lighting and flow patterns."
  const MockSummary := "Mock analysis: Your reef tank " + "shows promise with solid " + "fundamentals."
  const MockBreakdown: map<string, Json> := map[
    "equipment" := JStr("Good basic equipment setup " + "visible. Consider upgrading " + "lighting for coral growth."),
    "waterParams" := JStr("Water appears clear, " + "suggesting good filtration. " + "Monitor parameters regularly."),
    "livestock" := JStr("Fish appear healthy and " + "active. Good variety without " + "overcrowding."),
    "recommendations" := JStr("Consider adding more live " + "rock for biological " + "filtration and coral " + "placement areas.")]

  const ProviderFailed := "OpenAI API request failed"
  const MaxImageSize: nat := 10 * Mebibyte

  /** The verdict of the mock: `"Overall score: " + mockScore + "/100 - ..."`. */
  function MockVerdict(score: nat): string {
    "Overall score: " + NatToString(score) + "/100 - Good foundation with " + "improvement opportunities."
  }

  /** The mock analysis of both image functions. */
  function MockImage(k: Analysis.MockDraw): Json {
    JObj(map[
      "score" := JNum((k + 60) as real),
      "generalAssessment" := JStr(MockAssessment),
      "breakdown" := JObj(MockBreakdown),
      "summary" := JStr(MockSummary),
      "result" := JStr(MockVerdict(k + 60)),
      "imageAnalyzed" := JBool(true),
      "cached" := JBool(false)])
  }

  /** `analyze-image`'s answer to a reply that is not JSON: score 75, the reply as assessment
      and result, and a canned breakdown. */
  function FixedFallback(content: string): Json {
    JObj(map[
      "score" := JNum(75.0),
      "generalAssessment" := JStr(content),
      "breakdown" := JObj(map[
        "equipment" := JStr("Analysis completed"),
        "waterParams" := JStr("See general assessment"),
        "livestock" := JStr("See general assessment"),
        "recommendations" := JStr("See general assessment")]),
      "summary" := JStr("AI analysis completed"),
      "result" := JStr(content),
      "imageAnalyzed" := JBool(true),
      "cached" := JBool(false)])
  }

  /** `JSON.parse(content)` of the vision reply; a `null` content parses to `null`. */
  function VisionBody(content: Option<string>, parse: string -> ParseOutcome,
                      fallback: string -> Json): Json {
    match content
    case None => JNull
    case Some(t) =>
      match parse(t)
      case Parsed(v) => v
      case Unparseable => fallback(t)
  }

  /** The message of the `RangeError` a JavaScript engine throws when a call is spread over
      more arguments than it accepts. Its wording is the engine's and not part of the model. */
  const TooManyArguments := "Maximum call stack size exceeded"

  /** Whether an accepted upload reaches the point where `analyze-image` base64-encodes it. */
  predicate Accepted(verb: Method, image: Option<FormValue>)
  {
    verb != Options && image.Some? && CheckImage(image.value, MaxImageSize).Success?
  }

  /** The edge function `analyze-image` as written. `image` is the form's `image` field, `None`
      when the body is not form data. Before the mock check the accepted image is encoded by
      spreading every byte into one call of `String.fromCharCode`; `argLimit` is the engine's
      limit on the arguments of one call, and a larger image makes the call throw, which the
      handler answers with 500. */
  function AnalyzeImage(verb: Method, image: Option<FormValue>, env: Analysis.Env, k: Analysis.MockDraw,
                        call: Analysis.FetchReply, parse: string -> ParseOutcome, argLimit: nat): (r: Reply<Json>)
    ensures Accepted(verb, image) && image.value.file.size > argLimit ==> r == Err(500, TooManyArguments)
    ensures r.Ok? ==> Accepted(verb, image) && image.value.file.size <= argLimit
    ensures Accepted(verb, image) && image.value.file.size <= argLimit && Analysis.UseMock(env) ==>
      r == Ok(MockImage(k))
    ensures verb != Options && image.None? ==> r == Err(500, RuntimeError)
    ensures (Accepted(verb, image) && image.value.file.size <= argLimit && !Analysis.UseMock(env)) ==>
      && (call.Completed? ==> r == Ok(VisionBody(call.content, parse, FixedFallback)))
      && (call.FetchThrew? ==> r == Err(500, call.message))
      && (call.NotOk? ==> r == Err(500, ProviderFailed))
    ensures r.Preflight? <==> verb == Options
    ensures r.Err? && r.status == 400 <==>
      verb != Options && image.Some? && CheckImage(image.value, MaxImageSize).Failure?
    ensures r.Err? && r.status == 400 ==>
      r.message == Gallery.ImageErrorMessage(CheckImage(image.value, MaxImageSize).error)
    ensures r.Ok? && Analysis.UseMock(env) ==> r.body == MockImage(k)
    ensures r.Ok? && !Analysis.UseMock(env) ==>
      call.Completed? && r.body == VisionBody(call.content, parse, FixedFallback)
  {
    if Accepted(verb, image) && image.value.file.size > argLimit then Err(500, TooManyArguments)
    else AnalyzeImageBytewise(verb, image, env, k, call, parse)
  }

  /** `analyze-image` with the byte-by-byte encoding that `analyze-saved-image` uses, which does
      not depend on the image's size. */
  function AnalyzeImageBytewise(verb: Method, image: Option<FormValue>, env: Analysis.Env, k: Analysis.MockDraw,
                                call: Analysis.FetchReply, parse: string -> ParseOutcome): (r: Reply<Json>)
    ensures Accepted(verb, image) && Analysis.UseMock(env) ==> r == Ok(MockImage(k))
    ensures verb != Options && image.None? ==> r == Err(500, RuntimeError)
    ensures Accepted(verb, image) && !Analysis.UseMock(env) ==>
      && (call.Completed? ==> r == Ok(VisionBody(call.content, parse, FixedFallback)))
      && (call.FetchThrew? ==> r == Err(500, call.message))
      && (call.NotOk? ==> r == Err(500, ProviderFailed))
    ensures r.Preflight? <==> verb == Options
    ensures r.Ok? ==> image.Some? && CheckImage(image.value, MaxImageSize).Success?
    ensures r.Err? && r.status == 400 <==>
      verb != Options && image.Some? && CheckImage(image.value, MaxImageSize).Failure?
    ensures r.Err? && r.status == 400 ==>
      r.message == Gallery.ImageErrorMessage(CheckImage(image.value, MaxImageSize).error)
    ensures r.Ok? && Analysis.UseMock(env) ==> r.body == MockImage(k)
    ensures r.Ok? && !Analysis.UseMock(env) ==>
      call.Completed? && r.body == VisionBody(call.content, parse, FixedFallback)
  {
    if verb == Options then Preflight
    else if image.None? then Err(500, RuntimeError)
    else
      match CheckImage(image.value, MaxImageSize)
      case Failure(e) => Err(400, Gallery.ImageErrorMessage(e))
      case Success(_) =>
        if Analysis.UseMock(env) then Ok(MockImage(k))
        else
          match call
          case FetchThrew(m) => Err(500, m)
          case NotOk(_) => Err(500, ProviderFailed)
          case Completed(c) => Ok(VisionBody(c, parse, FixedFallback))
  }

  /** Below the engine's limit, and for every upload that is not accepted, the handler as written
      answers exactly as the byte-by-byte encoding would. */
  lemma AnalyzeImageWithinLimit(verb: Method, image: Option<FormValue>, env: Analysis.Env, k: Analysis.MockDraw,
                                call: Analysis.FetchReply, parse: string -> ParseOutcome, argLimit: nat)
    requires !Accepted(verb, image) || image.value.file.size <= argLimit
    ensures AnalyzeImage(verb, image, env, k, call, parse, argLimit)
         == AnalyzeImageBytewise(verb, image, env, k, call, parse)
  {
  }

  /** A one-mebibyte JPEG in mock mode: the checks accept it and no provider is called, yet the
      handler as written answers 500 once the engine refuses a million arguments, where the
      byte-by-byte encoding answers with the mock analysis. */
  lemma LargeImageRefusedInMockMode(k: Analysis.MockDraw, call: Analysis.FetchReply,
                                    parse: string -> ParseOutcome, argLimit: nat)
    requires argLimit < Mebibyte
    ensures var image := Some(FileValue(File("tank.jpg", "image/jpeg", Mebibyte)));
            var env := Analysis.Env(None, None);
            && AnalyzeImage(Post, image, env, k, call, parse, argLimit) == Err(500, TooManyArguments)
            && AnalyzeImageBytewise(Post, image, env, k, call, parse) == Ok(MockImage(k))
  {
  }

  // ---- The extraction `analyze-saved-image` applies to a reply that is not JSON ----

  const LivestockWords: seq<string> := ["fish", "coral", "livestock"]
  const LivestockIncluded := "Livestock assessment included " + "in general analysis."
  const NoLivestock := "No specific livestock " + "analysis available."

  /** One breakdown field: when the guard holds, the first sentence starting with one of
      `words` (or `included` if there is none), otherwise `missing`. */
  function Section(content: string, guard: bool, words: seq<string>, included: string, missing: string): string {
    if guard then
      match SentenceFrom(content, 0, words)
      case Some(m) => m
      case None => included
    else missing
  }

  /** When the guard holds and a sentence starts with one of the words, the field is the
      first such sentence: the piece of the reply from the word matched at the leftmost
      match position up to the first dot after it. */
  lemma SectionQuotesReply(content: string, guard: bool, words: seq<string>, included: string,
                           missing: string, q: nat, w: string)
    requires guard && q <= |content| && w in words && SentenceStartsAt(content, q, w)
    ensures SentenceFrom(content, 0, words).Some?
    ensures var p := MatchPosition(content, 0, words);
            var v := MatchedWord(content, p, words);
            Section(content, guard, words, included, missing) == content[p..FirstDot(content, p + |v|).value + 1]
  {
    SentenceFromFinds(content, 0, q, words, w);
  }

  /** The livestock guard as the source writes it: `content.includes('fish|coral|livestock')`
      looks for that literal text, bars included. */
  predicate LivestockGuardAsWritten(content: string) {
    Contains(content, "fish|coral|livestock")
  }

  /** The livestock guard as evidently intended: the reply mentions fish, coral or livestock. */
  predicate LivestockGuard(content: string) {
    Contains(content, "fish") || Contains(content, "coral") || Contains(content, "livestock")
  }

  function LivestockAsWritten(content: string): string {
    Section(content, LivestockGuardAsWritten(content), LivestockWords,
            LivestockIncluded, NoLivestock)
  }

  function Livestock(content: string): string {
    Section(content, LivestockGuard(content), LivestockWords,
            LivestockIncluded, NoLivestock)
  }

  /** A reply that talks about fish in a sentence gets that sentence as its livestock
      assessment, never the "no livestock analysis" message. */
  lemma LivestockQuotesFish(content: string, q: nat)
    requires q <= |content| && OccursAt(content, "fish", q) && FirstDot(content, q + 4).Some?
    ensures Livestock(content) != NoLivestock
    ensures SentenceFrom(content, 0, LivestockWords).Some?
    ensures var p := MatchPosition(content, 0, LivestockWords);
            var v := MatchedWord(content, p, LivestockWords);
            Livestock(content) == content[p..FirstDot(content, p + |v|).value + 1]
  {
    FishGuard(content, q);
    FishMatches(content, q);
    LivestockQuotesSentence(content, q);
  }

  /** The same, from a case-insensitive match of `fish` followed by a dot in a reply that
      passes the guard. */
  lemma LivestockQuotesSentence(content: string, q: nat)
    requires q <= |content| && LivestockGuard(content)
    requires MatchesAtCI(content, q, "fish") && FirstDot(content, q + 4).Some?
    ensures Livestock(content) != NoLivestock
    ensures SentenceFrom(content, 0, LivestockWords).Some?
    ensures var p := MatchPosition(content, 0, LivestockWords);
            var v := MatchedWord(content, p, LivestockWords);
            Livestock(content) == content[p..FirstDot(content, p + |v|).value + 1]
  {
    SectionQuotesReply(content, true, LivestockWords, LivestockIncluded,
                       NoLivestock, q, "fish");
    var p := MatchPosition(content, 0, LivestockWords);
    var v := MatchedWord(content, p, LivestockWords);
    LivestockSentenceLetter(content, p, v);
    NotNoLivestock(Livestock(content));
  }

  /** A reply with `fish` in it passes the intended livestock guard. */
  lemma FishGuard(content: string, q: nat)
    requires OccursAt(content, "fish", q)
    ensures LivestockGuard(content)
  {
    ContainsIff(content, "fish");
  }

  /** An occurrence of `fish` is a case-insensitive match of it. */
  lemma FishMatches(content: string, q: nat)
    requires OccursAt(content, "fish", q)
    ensures MatchesAtCI(content, q, "fish")
  {
    assert content[q..q + 4] == "fish";
    forall k | 0 <= k < 4 ensures LowerChar(content[q + k]) == LowerChar("fish"[k]) {
      assert content[q + k] == content[q..q + 4][k];
    }
  }

  /** A sentence starting with a livestock word begins with an f, c or l in some case. */
  lemma LivestockSentenceLetter(content: string, p: nat, v: string)
    requires p <= |content| && v in LivestockWords && SentenceStartsAt(content, p, v)
    ensures var m := content[p..FirstDot(content, p + |v|).value + 1];
            m != [] && LowerChar(m[0]) in {'f', 'c', 'l'}
  {
    assert v == "fish" || v == "coral" || v == "livestock";
    assert LowerChar(content[p]) == LowerChar(v[0]);
  }

  /** Such a text is not the "no livestock" message, whose first letter is an n. */
  lemma NotNoLivestock(m: string)
    requires m != [] && LowerChar(m[0]) in {'f', 'c', 'l'}
    ensures m != NoLivestock
  {
    assert LowerChar(NoLivestock[0]) == 'n';
  }

  /** The discrepancy: a reply that says "The fish thrive." has no livestock field as the
      source is written, though it has a livestock sentence. */
  lemma LivestockGuardMissesFish()
    ensures LivestockAsWritten("The fish thrive.") == NoLivestock
    ensures Livestock("The fish thrive.") != NoLivestock
  {
    var s := "The fish thrive.";
    ShortTextLacksLongPattern(s, "fish|coral|livestock");
    FishSentence();
    LivestockQuotesFish(s, 4);
  }

  /** A text shorter than a pattern does not contain it. */
  lemma ShortTextLacksLongPattern(s: string, pat: string)
    requires |s| < |pat|
    ensures !Contains(s, pat)
  {
    ContainsIff(s, pat);
  }

  lemma FishSentence()
    ensures OccursAt("The fish thrive.", "fish", 4) && FirstDot("The fish thrive.", 8).Some?
  {
    var s := "The fish thrive.";
    assert s[4..8] == "fish";
    assert s[15] == '.';
    assert FirstDot(s, 15) == Some(15);
  }

  /** The two guards only differ on replies without the literal text: where the source's
      guard holds, the intended one holds too and both give the same livestock field. */
  lemma LivestockAgreesOnLiteral(content: string)
    requires LivestockGuardAsWritten(content)
    ensures LivestockGuard(content)
    ensures LivestockAsWritten(content) == Livestock(content)
  {
    ContainsIff(content, "fish|coral|livestock");
    var i :| OccursAt(content, "fish|coral|livestock", i);
    assert content[i..i + 4] == content[i..i + 20][..4];
    assert OccursAt(content, "fish", i);
    ContainsIff(content, "fish");
  }

  /** The breakdown built from a reply that is not JSON, with the livestock field under the
      guard as the source writes it. */
  function ExtractedBreakdown(content: string): Json {
    JObj(map[
      "equipment" := JStr(Section(content, Contains(content, "equipment"), ["equipment"],
                                  "Equipment assessment included " + "in general analysis.",
                                  "No specific equipment " + "analysis available.")),
      "waterParams" := JStr(Section(content, Contains(content, "water"), ["water"],
                                    "Water quality assessment " + "included in general analysis.",
                                    "No specific water parameter " + "analysis available.")),
      "livestock" := JStr(LivestockAsWritten(content)),
      "recommendations" := JStr(Section(content, Contains(content, "recommend"), ["recommend"],
                                        "Recommendations included in " + "general analysis.",
                                        "See general assessment for " + "recommendations."))])
  }

  /** `analyze-saved-image`'s answer to a reply that is not JSON: the score read from the
      text, shortened copies as assessment and summary, the reply as result. */
  function RegexFallback(content: string): (v: Json)
    ensures v.JObj? && Member(v, "result") == Some(JStr(content))
    ensures Member(v, "cached") == Some(JBool(false))
    ensures Member(v, "score") == Some(JNum(ExtractScore(content) as real))
    ensures Member(v, "breakdown").Some?
            && Member(Member(v, "breakdown").value, "livestock") == Some(JStr(LivestockAsWritten(content)))
  {
    JObj(map[
      "score" := JNum(ExtractScore(content) as real),
      "generalAssessment" := JStr(Ellipsize(content, 300)),
      "breakdown" := ExtractedBreakdown(content),
      "summary" := JStr(Ellipsize(content, 150)),
      "result" := JStr(content),
      "imageAnalyzed" := JBool(true),
      "cached" := JBool(false)])
  }

  /** In a text starting with "Overall score: " the first match of the score pattern can
      only start at the word "score". */
  lemma OverallScoreWord(s: string)
    requires |s| >= 15 && s[..15] == "Overall score: "
    ensures forall i :: 0 <= i < 8 ==> ScoreAt(s, i).None?
    ensures MatchesAtCI(s, 8, "score")
    ensures SkipSeparators(s, 13) == SkipSeparators(s, 15)
  {
    assert forall i :: 0 <= i < 15 ==> s[i] == "Overall score: "[i];
    assert "score"[0] == 's';
    forall i | 0 <= i < 8 ensures !MatchesAtCI(s, i, "score") {
      assert s[i] in "Overall " && s[i] != 's' && s[i] != 'S';
      assert LowerChar(s[i]) != LowerChar("score"[0]);
    }
    assert s[13] == ':' && s[14] == ' ';
  }

  /** The mock's verdict states its score in a form the fallback's score pattern reads back. */
  lemma MockVerdictScore(n: nat)
    ensures ExtractScore(MockVerdict(n)) == n
  {
    var d := NatToString(n);
    var tail := "/100 - Good foundation with " + "improvement opportunities.";
    var s := MockVerdict(n);
    assert s == "Overall score: " + d + tail;
    assert tail[0] == "/100"[0] == '/';
    assert s[..15] == "Overall score: ";
    OverallScoreWord(s);
    assert s[15] == d[0];
    assert SkipSeparators(s, 15) == 15;
    assert s[15..15 + |d|] == d;
    assert s[15 + |d|] == tail[0];
    ScoreFromFinds(s, 0, 8, n);
    NatToStringRoundTrip(n);
  }

  /** A row of `image_analysis_results`. */
  datatype ResultRow = ResultRow(user: UserId, imageId: Json, data: Json)

  /** What the storage service and the database answer to `analyze-saved-image`: whether a
      signed URL is created, whether the download succeeds, whether the result is stored. */
  datatype SavedEnv = SavedEnv(signed: bool, downloaded: bool, stored: bool)

  const IdRequired := "Image ID is required"
  const SignFailed := "Failed to generate image URL"
  const DownloadFailed := "Failed to download image"

  /** The request names, by a string `imageId`, an image of the authenticated caller. */
  predicate FindsImage(header: Option<string>, verify: string -> Option<UserId>, body: Option<Json>,
                       images: seq<Gallery.ImageRow>)
  {
    && Authenticate(header, verify).Success? && body.Some? && !body.value.JNull?
    && var id := Member(body.value, "imageId");
    && Present(id) && id.value.JStr?
    && Gallery.Lookup(images, id.value.s, Authenticate(header, verify).value).Some?
  }

  /** The edge function `analyze-saved-image`, apart from its table: the reply, and the row it
      inserts into `image_analysis_results`, if any. `body` is `None` when the body is not
      JSON; `images` is the gallery table. */
  function SavedOutcome(verb: Method, header: Option<string>, verify: string -> Option<UserId>,
                        body: Option<Json>, images: seq<Gallery.ImageRow>, env: Analysis.Env,
                        senv: SavedEnv, k: Analysis.MockDraw, call: Analysis.FetchReply,
                        parse: string -> ParseOutcome): (r: (Reply<Json>, Option<ResultRow>))
    ensures r.1.Some? <==> r.0.Ok? && senv.stored
    ensures r.0.Ok? ==>
      && Authenticate(header, verify).Success? && body.Some?
      && var id := Member(body.value, "imageId");
      && id.Some? && id.value.JStr?
      && Gallery.Lookup(images, id.value.s, Authenticate(header, verify).value).Some?
      && (r.1.Some? ==> r.1.value == ResultRow(Authenticate(header, verify).value, id.value, r.0.body))
    ensures r.0.Ok? && Analysis.UseMock(env) ==> r.0.body == MockImage(k)
    ensures r.0.Ok? && !Analysis.UseMock(env) ==>
      call.Completed? && r.0.body == VisionBody(call.content, parse, RegexFallback)
    ensures r.0.Err? && r.0.status == 401 <==> verb != Options && Authenticate(header, verify).Failure?
    ensures r.0.Preflight? <==> verb == Options
    ensures r.0.Ok? ==> verb != Options && FindsImage(header, verify, body, images) && senv.signed && senv.downloaded
    ensures (verb != Options && Authenticate(header, verify).Success? && (body.None? || body.value.JNull?)) ==>
      r == (Err(500, RuntimeError), None)
    ensures (verb != Options && Authenticate(header, verify).Success? && body.Some? && !body.value.JNull?
             && !Present(Member(body.value, "imageId"))) ==>
      r == (Err(400, IdRequired), None)
    ensures (verb != Options && Authenticate(header, verify).Success? && body.Some? && !body.value.JNull?
             && Present(Member(body.value, "imageId")) && !FindsImage(header, verify, body, images)) ==>
      r == (Err(404, Gallery.ImageNotFound), None)
    ensures verb != Options && FindsImage(header, verify, body, images) && !senv.signed ==>
      r == (Err(500, SignFailed), None)
    ensures verb != Options && FindsImage(header, verify, body, images) && senv.signed && !senv.downloaded ==>
      r == (Err(500, DownloadFailed), None)
    ensures (verb != Options && FindsImage(header, verify, body, images) && senv.signed && senv.downloaded) ==>
      && (Analysis.UseMock(env) ==> r.0 == Ok(MockImage(k)))
      && (!Analysis.UseMock(env) && call.Completed? ==> r.0 == Ok(VisionBody(call.content, parse, RegexFallback)))
      && (!Analysis.UseMock(env) && call.FetchThrew? ==> r == (Err(500, call.message), None))
      && (!Analysis.UseMock(env) && call.NotOk? ==> r == (Err(500, ProviderFailed), None))
  {
    if verb == Options then (Preflight, None)
    else
      match Authenticate(header, verify)
      case Failure(m) => (Err(401, m), None)
      case Success(u) =>
        if body.None? || body.value.JNull? then (Err(500, RuntimeError), None)
        else
          var id := Member(body.value, "imageId");
          if !Present(id) then (Err(400, IdRequired), None)
          else if !id.value.JStr? || Gallery.Lookup(images, id.value.s, u).None? then
            (Err(404, Gallery.ImageNotFound), None)
          else if !senv.signed then (Err(500, SignFailed), None)
          else if !senv.downloaded then (Err(500, DownloadFailed), None)
          else
            var data :=
              if Analysis.UseMock(env) then Success(MockImage(k))
              else
                match call
                case FetchThrew(m) => Failure(m)
                case NotOk(_) => Failure(ProviderFailed)
                case Completed(c) => Success(VisionBody(c, parse, RegexFallback));
            match data
            case Failure(m) => (Err(500, m), None)
            case Success(v) =>
              // a failed insert is only logged
              (Ok(v), if senv.stored then Some(ResultRow(u, id.value, v)) else None)
  }

  /** The edge function with its table `results` of stored analyses: the reply, and the table
      with the new row appended when one is stored. */
  function AnalyzeSaved(verb: Method, header: Option<string>, verify: string -> Option<UserId>,
                        body: Option<Json>, images: seq<Gallery.ImageRow>, env: Analysis.Env,
                        senv: SavedEnv, k: Analysis.MockDraw, call: Analysis.FetchReply,
                        parse: string -> ParseOutcome, results: seq<ResultRow>): (r: (Reply<Json>, seq<ResultRow>))
    ensures !r.0.Ok? ==> r.1 == results
    ensures r.0.Ok? ==>
      && Authenticate(header, verify).Success? && body.Some?
      && var id := Member(body.value, "imageId");
      && id.Some? && id.value.JStr?
      && Gallery.Lookup(images, id.value.s, Authenticate(header, verify).value).Some?
      && r.1 == (if senv.stored then results + [ResultRow(Authenticate(header, verify).value, id.value, r.0.body)]
                 else results)
  {
    var (reply, row) := SavedOutcome(verb, header, verify, body, images, env, senv, k, call, parse);
    (reply, if row.Some? then results + [row.value] else results)
  }

  /** The reply never depends on earlier stored analyses: nothing is served from a cache. */
  lemma SavedIgnoresHistory(verb: Method, header: Option<string>, verify: string -> Option<UserId>,
                            body: Option<Json>, images: seq<Gallery.ImageRow>, env: Analysis.Env,
                            senv: SavedEnv, k: Analysis.MockDraw, call: Analysis.FetchReply,
                            parse: string -> ParseOutcome, h1: seq<ResultRow>, h2: seq<ResultRow>)
    ensures AnalyzeSaved(verb, header, verify, body, images, env, senv, k, call, parse, h1).0
         == AnalyzeSaved(verb, header, verify, body, images, env, senv, k, call, parse, h2).0
  {
  }
}
