/**
 * The deterministic rules of the look-alike portrait server (server.js):
 * reading the request body under a size ceiling, normalising the JSON body
 * into a request, building the image prompt and the provider query,
 * shaping the provider's answer into a data URL and an analysis sentence,
 * and the order in which the POST handler applies them.
 *
 * The network, the file system, `JSON.parse`, the UTF-8 decoder,
 * `encodeURIComponent` and `Math.random` are not modelled: their results
 * are parameters.
 */
module Server {
  import opened Wrappers
  import opened Strings
  import Base64

  type Byte = Base64.Byte

  // ---------------------------------------------------------------------
  // Configuration
  // ---------------------------------------------------------------------

  /** The settings read once from the environment at start-up. */
  datatype Config = Config(model: string, apiKey: string)

  const DefaultModel := "flux"

  /**
   * `process.env.POLLINATIONS_MODEL || 'flux'` and
   * `process.env.POLLINATIONS_API_KEY || ''`: an unset variable and an empty
   * one are treated alike.
   */
  function LoadConfig(envModel: Option<string>, envKey: Option<string>): (c: Config)
    ensures c.model != ""
    ensures c.model == DefaultModel <==> envModel.None? || envModel.value in {"", DefaultModel}
    ensures envModel.Some? && envModel.value != "" ==> c.model == envModel.value
    ensures c.apiKey == "" <==> envKey.None? || envKey.value == ""
    ensures envKey.Some? ==> c.apiKey == envKey.value
  {
    Config(
      if envModel.Some? && envModel.value != "" then envModel.value else DefaultModel,
      if envKey.Some? then envKey.value else "")
  }

  // ---------------------------------------------------------------------
  // Static content types
  // ---------------------------------------------------------------------

  const HtmlType := "text/html; charset=utf-8"
  const CssType := "text/css; charset=utf-8"
  const ScriptType := "application/javascript; charset=utf-8"
  const BinaryType := "application/octet-stream"

  /** The Content-Type for a served file, chosen by the first matching suffix. */
  function FileContentType(filePath: string): (t: string)
    ensures t in {HtmlType, CssType, ScriptType, BinaryType}
    ensures EndsWith(filePath, ".html") ==> t == HtmlType
  {
    if EndsWith(filePath, ".html") then HtmlType
    else if EndsWith(filePath, ".css") then CssType
    else if EndsWith(filePath, ".js") then ScriptType
    else BinaryType
  }

  /**
   * Each of the three suffixes picks its own type, and every other path is
   * served as binary. The suffixes exclude one another, so the order of the
   * tests does not change the outcome.
   */
  lemma FileContentTypeBySuffix(filePath: string)
    ensures FileContentType(filePath) == HtmlType <==> EndsWith(filePath, ".html")
    ensures FileContentType(filePath) == CssType <==> EndsWith(filePath, ".css")
    ensures FileContentType(filePath) == ScriptType <==> EndsWith(filePath, ".js")
    ensures FileContentType(filePath) == BinaryType <==>
      !EndsWith(filePath, ".html") && !EndsWith(filePath, ".css") && !EndsWith(filePath, ".js")
  {
    var n := |filePath|;
    if EndsWith(filePath, ".css") {
      assert filePath[n - 2] == 's';
      assert !EndsWith(filePath, ".js") by { assert ".js"[1] == 'j'; }
    }
    if EndsWith(filePath, ".html") {
      assert filePath[n - 1] == 'l';
    }
  }

  // ---------------------------------------------------------------------
  // Reading the request body
  // ---------------------------------------------------------------------

  /** The largest request body accepted: 12 MiB. */
  const MaxBodyBytes := 12 * 1024 * 1024

  /** Total length of the chunks, in bytes. */
  function TotalLength(chunks: seq<seq<Byte>>): nat {
    if chunks == [] then 0 else TotalLength(chunks[..|chunks| - 1]) + |chunks[|chunks| - 1]|
  }

  /** `Buffer.concat(chunks)`: the bytes of the chunks in arrival order. */
  function Concat(chunks: seq<seq<Byte>>): (bytes: seq<Byte>)
    ensures |bytes| == TotalLength(chunks)
  {
    if chunks == [] then [] else Concat(chunks[..|chunks| - 1]) + chunks[|chunks| - 1]
  }

  /** Some prefix of the chunk stream is longer than the ceiling. */
  predicate Overflows(chunks: seq<seq<Byte>>) {
    exists k | 0 < k <= |chunks| :: TotalLength(chunks[..k]) > MaxBodyBytes
  }

  /** How the stream of `data` events ends when the ceiling is not crossed. */
  datatype Ending = Ended | Errored(message: string)

  datatype BodyRead =
    | Body(bytes: seq<Byte>)
    | TooLarge(at: nat)           // index of the chunk that crossed the ceiling
    | StreamFailed(message: string)

  /**
   * `readRequestBody`: each chunk is added to a running total; the read is
   * rejected at the first chunk that takes the total past the ceiling (that
   * chunk is not kept and the connection is destroyed), and otherwise the
   * kept chunks are joined when the stream ends.
   */
  method ReadRequestBody(chunks: seq<seq<Byte>>, ending: Ending) returns (r: BodyRead)
    ensures r.TooLarge? <==> Overflows(chunks)
    ensures r.TooLarge? ==>
      r.at < |chunks| && TotalLength(chunks[..r.at + 1]) > MaxBodyBytes &&
      forall k :: 0 <= k <= r.at ==> TotalLength(chunks[..k]) <= MaxBodyBytes
    ensures r.Body? <==> !Overflows(chunks) && ending == Ended
    ensures r.Body? ==> r.bytes == Concat(chunks) && |r.bytes| <= MaxBodyBytes
    ensures r.StreamFailed? ==> ending == Errored(r.message)
  {
    var kept: seq<seq<Byte>> := [];
    var total := 0;
    var i := 0;
    while i < |chunks|
      invariant 0 <= i <= |chunks|
      invariant kept == chunks[..i]
      invariant total == TotalLength(kept)
      invariant forall k :: 0 <= k <= i ==> TotalLength(chunks[..k]) <= MaxBodyBytes
    {
      assert chunks[..i + 1][..i] == chunks[..i];
      total := total + |chunks[i]|;
      if total > MaxBodyBytes {
        assert TotalLength(chunks[..i + 1]) > MaxBodyBytes;
        return TooLarge(i);
      }
      kept := kept + [chunks[i]];
      i := i + 1;
    }
    assert kept == chunks;
    assert !Overflows(chunks);
    match ending
    case Ended => r := Body(Concat(kept));
    case Errored(message) => r := StreamFailed(message);
  }

  /** Running totals only grow, so an earlier prefix never holds more than a later one. */
  lemma {:induction false} TotalLengthMonotone(chunks: seq<seq<Byte>>, k: nat)
    requires k <= |chunks|
    ensures TotalLength(chunks[..k]) <= TotalLength(chunks)
  {
    if k < |chunks| {
      var init := chunks[..|chunks| - 1];
      assert init[..k] == chunks[..k];
      TotalLengthMonotone(init, k);
    } else {
      assert chunks[..k] == chunks;
    }
  }

  /** The body is rejected exactly when the whole stream is longer than the ceiling. */
  lemma OverflowsIffTooLong(chunks: seq<seq<Byte>>)
    ensures Overflows(chunks) <==> TotalLength(chunks) > MaxBodyBytes
  {
    if Overflows(chunks) {
      var k :| 0 < k <= |chunks| && TotalLength(chunks[..k]) > MaxBodyBytes;
      TotalLengthMonotone(chunks, k);
    }
    if TotalLength(chunks) > MaxBodyBytes {
      assert chunks[..|chunks|] == chunks;
    }
  }

  // ---------------------------------------------------------------------
  // The JSON body and its normalisation
  // ---------------------------------------------------------------------

  /** A value `JSON.parse` can produce; numbers are the parsed doubles' values. */
  datatype Json =
    | JNull
    | JBool(b: bool)
    | JNumber(x: real)
    | JString(s: string)
    | JArray(items: seq<Json>)
    | JObject(fields: map<string, Json>)

  /** The outcome of decoding the body as UTF-8 and calling `JSON.parse` on it. */
  datatype ParsedBody = Unparseable | Parsed(value: Json)

  /**
   * `v[key]` for the handler's own property names, none of which any
   * prototype defines: only an object's own field is found.
   */
  function Property(v: Json, key: string): Option<Json> {
    if v.JObject? && key in v.fields then Some(v.fields[key]) else None
  }

  /** The property when `typeof v[key] === 'string'`. */
  function StringProperty(v: Json, key: string): Option<string> {
    match Property(v, key)
    case Some(JString(s)) => Some(s)
    case _ => None
  }

  /** `Boolean(x)`: `undefined`, `null`, `false`, zero and `""` are false. */
  predicate Truthy(x: Option<Json>)
    ensures x.None? || x == Some(JNull) || x == Some(JBool(false)) ==> !Truthy(x)
    ensures x == Some(JNumber(0.0)) || x == Some(JString("")) ==> !Truthy(x)
    ensures x.Some? && (x.value.JArray? || x.value.JObject?) ==> Truthy(x)
  {
    match x
    case None => false
    case Some(JNull) => false
    case Some(JBool(b)) => b
    case Some(JNumber(n)) => n != 0.0
    case Some(JString(s)) => s != ""
    case Some(_) => true
  }

  datatype Lang = En | Ko

  const DefaultAnimalEn := "cat"
  const DefaultAnimalKo := "고양이"
  const DefaultTraitsEn := "balanced expression, clear eyes, " + "natural skin tone, medium contrast, calm mood"
  const DefaultTraitsKo := "균형 잡힌 표정, 또렷한 눈매, 자연스러운 피부톤, 중간 대비, 차분한 분위기"

  function DefaultAnimal(lang: Lang): (a: string)
    ensures a != "" && IsTrimmed(a)
  {
    if lang == En then DefaultAnimalEn else DefaultAnimalKo
  }

  function DefaultTraits(lang: Lang): (t: string)
    ensures t != "" && IsTrimmed(t)
  {
    assert DefaultTraitsEn[0] == 'b' && DefaultTraitsKo[0] == '균';
    if lang == En then DefaultTraitsEn else DefaultTraitsKo
  }

  /** A request once its fields have been coerced; what the generator receives. */
  datatype LookalikeRequest = LookalikeRequest(
    imageDataUrl: string, lang: Lang, reroll: bool, animalType: string, traitsText: string)

  const ImagePrefix := "data:image/"

  datatype RequestError =
    | InvalidJson     // the body did not parse
    | NullBody        // the body parsed to `null`, so reading a property throws
    | MissingImage    // `imageDataUrl` absent, not a string, or not a data:image URL

  const InvalidJsonMessage := "Invalid JSON body"
  const MissingImageMessage := "imageDataUrl is required and must be a data:image URL"
  /** V8's TypeError text for a property read on `null`. */
  const NullBodyMessage := "Cannot read properties of null (reading 'imageDataUrl')"

  /** The coerced language: English only for the exact string "en". */
  function LangOf(body: Json): (lang: Lang)
    ensures lang == En <==> Property(body, "lang") == Some(JString("en"))
  {
    if Property(body, "lang") == Some(JString("en")) then En else Ko
  }

  /** A string field, trimmed, or the fallback when it is absent, not a string or blank. */
  function TrimmedOr(body: Json, key: string, fallback: string): (r: string)
    ensures StringProperty(body, key).Some? && Trim(StringProperty(body, key).value) != ""
      ==> r == Trim(StringProperty(body, key).value)
    ensures StringProperty(body, key).None? || Trim(StringProperty(body, key).value) == ""
      ==> r == fallback
  {
    match StringProperty(body, key)
    case Some(s) => if Trim(s) != "" then Trim(s) else fallback
    case None => fallback
  }

  /** The fields a generator may rely on: a data:image URL and non-blank, trimmed texts. */
  predicate WellFormed(req: LookalikeRequest) {
    StartsWith(req.imageDataUrl, ImagePrefix)
    && req.animalType != "" && IsTrimmed(req.animalType)
    && req.traitsText != "" && IsTrimmed(req.traitsText)
  }

  /**
   * The POST handler's reading of the parsed body, in source order: a parse
   * failure is rejected first, a `null` body throws on its first property
   * read, and only then is the image URL checked.
   */
  function Normalise(body: ParsedBody): (r: Result<LookalikeRequest, RequestError>)
    ensures r == Failure(InvalidJson) <==> body.Unparseable?
    ensures r == Failure(NullBody) <==> body == Parsed(JNull)
    ensures r == Failure(MissingImage) <==>
      body.Parsed? && body.value != JNull &&
      !(StringProperty(body.value, "imageDataUrl").Some? &&
        StartsWith(StringProperty(body.value, "imageDataUrl").value, ImagePrefix))
    ensures r.Success? ==> WellFormed(r.value)
    ensures r.Success? ==>
      Some(r.value.imageDataUrl) == StringProperty(body.value, "imageDataUrl") &&
      (r.value.lang == En <==> Property(body.value, "lang") == Some(JString("en"))) &&
      r.value.reroll == Truthy(Property(body.value, "reroll"))
  {
    match body
    case Unparseable => Failure(InvalidJson)
    case Parsed(JNull) => Failure(NullBody)
    case Parsed(v) =>
      var imageDataUrl := match StringProperty(v, "imageDataUrl") case Some(s) => s case None => "";
      var lang := LangOf(v);
      var reroll := Truthy(Property(v, "reroll"));
      var animalType := TrimmedOr(v, "animalType", DefaultAnimal(lang));
      var traitsText := TrimmedOr(v, "traitsText", DefaultTraits(lang));
      if !StartsWith(imageDataUrl, ImagePrefix) then Failure(MissingImage)
      else Success(LookalikeRequest(imageDataUrl, lang, reroll, animalType, traitsText))
  }

  /**
   * The optional texts: each is the trimmed input when that has any
   * non-blank content, and otherwise the default of the coerced language.
   */
  lemma NormaliseTexts(v: Json)
    requires Normalise(Parsed(v)).Success?
    ensures var req := Normalise(Parsed(v)).value;
      var a := StringProperty(v, "animalType");
      var t := StringProperty(v, "traitsText");
      && (req.animalType == if a.Some? && !AllTrimmable(a.value) then Trim(a.value) else DefaultAnimal(req.lang))
      && (req.traitsText == if t.Some? && !AllTrimmable(t.value) then Trim(t.value) else DefaultTraits(req.lang))
  {
    var a := StringProperty(v, "animalType");
    var t := StringProperty(v, "traitsText");
    if a.Some? { TrimBlank(a.value); }
    if t.Some? { TrimBlank(t.value); }
  }

  /** The JSON a client would send for a request. */
  function RequestJson(req: LookalikeRequest): Json {
    JObject(map[
      "imageDataUrl" := JString(req.imageDataUrl),
      "lang" := JString(if req.lang == En then "en" else "ko"),
      "reroll" := JBool(req.reroll),
      "animalType" := JString(req.animalType),
      "traitsText" := JString(req.traitsText)])
  }

  /** Each field of a request's JSON reads back as the field. */
  lemma RequestJsonFields(req: LookalikeRequest)
    ensures var v := RequestJson(req);
      && StringProperty(v, "imageDataUrl") == Some(req.imageDataUrl)
      && LangOf(v) == req.lang
      && Truthy(Property(v, "reroll")) == req.reroll
      && StringProperty(v, "animalType") == Some(req.animalType)
      && StringProperty(v, "traitsText") == Some(req.traitsText)
  {

  }

  /** Normalisation leaves an already normalised request as it is. */
  lemma NormaliseFixpoint(req: LookalikeRequest)
    requires WellFormed(req)
    ensures Normalise(Parsed(RequestJson(req))) == Success(req)
  {
    var v := RequestJson(req);
    assert TrimmedOr(v, "animalType", DefaultAnimal(req.lang)) == req.animalType by {
      RequestJsonFields(req);
      TrimIdempotent(req.animalType);
    }
    assert TrimmedOr(v, "traitsText", DefaultTraits(req.lang)) == req.traitsText by {
      RequestJsonFields(req);
      TrimIdempotent(req.traitsText);
    }
    assert StringProperty(v, "imageDataUrl") == Some(req.imageDataUrl)
      && LangOf(v) == req.lang && Truthy(Property(v, "reroll")) == req.reroll by {
      RequestJsonFields(req);
    }
  }

  // ---------------------------------------------------------------------
  // The prompt
  // ---------------------------------------------------------------------

  const OutfitReferenceUrl :=
    "https://d29hudvzbgrxww.cloudfront.net/public/product/2023011516445-a757c3d3-be926ff4c87a.jpg"

  const VariationEn := "Create a clearly different variation from previous output while keeping identity cues."
  const VariationKo := "이전 결과와 확실히 다른 변형으로 생성하되 인물 정체성 힌트는 유지."

  /** The clause a reroll adds, in the request's language. */
  function Variation(lang: Lang): string {
    if lang == En then VariationEn else VariationKo
  }

  /** What the prompt says before the animal type (the Korean template opens with it). */
  function PromptLead(lang: Lang): string {
    if lang == En then "Ultra-detailed anime portrait of a real person wearing " else ""
  }

  /** What the prompt says between the animal type and the outfit reference URL. */
  function PromptStyle(lang: Lang): string {
    if lang == En then
      " animal hoodie costume, "
      + "cinematic lighting, realistic eyes and skin texture, high detail face rendering, natural asymmetry, "
      + "expression fidelity, premium illustration quality, no text, no watermark. "
      + "Use this outfit vibe reference: "
    else
      " 동물 후드 의상을 입은 실사형 애니 초상화, 시네마틱 조명, "
      + "눈빛/피부 질감의 사실적 표현, 얼굴 디테일 고해상도, 자연스러운 좌우 비대칭, "
      + "표정 재현도 강화, 고급 일러스트 퀄리티, 텍스트/워터마크 없음. "
      + "의상 분위기 참고: "
  }

  /** The part of the prompt before the face traits, through the outfit reference. */
  function Preamble(lang: Lang, animalType: string): string {
    PromptLead(lang) + animalType + PromptStyle(lang) + OutfitReferenceUrl + ". "
  }

  /** The label that introduces the face traits. */
  function TraitsLabel(lang: Lang): string {
    if lang == En then "Face traits: " else "얼굴 특징: "
  }

  /**
   * The last template literal of `buildPrompt`, with the `.trim()` that
   * binds to it alone: the traits sentence and the variation clause.
   */
  function TraitsSentence(lang: Lang, traitsText: string, variation: string): (t: string)
    ensures IsTrimmed(t)
  {
    Trim(TraitsLabel(lang) + traitsText + ". " + variation)
  }

  /** `buildPrompt`: the preamble of the request's language, then the trimmed traits sentence. */
  function BuildPrompt(lang: Lang, animalType: string, traitsText: string, reroll: bool): (p: string)
    ensures StartsWith(p, Preamble(lang, animalType))
  {
    var variation := if reroll then Variation(lang) else "";
    Preamble(lang, animalType) + TraitsSentence(lang, traitsText, variation)
  }

  /** Trimming "<intro><text>. " removes only the final space. */
  lemma TrimSentenceAlone(intro: string, text: string)
    requires intro != [] && !IsTrimmable(intro[0])
    ensures Trim(intro + text + ". ") == intro + text + "."
  {
    var sentence := intro + text + ".";
    assert sentence[0] == intro[0];
    assert [] + sentence + " " == intro + text + ". ";
    TrimExact([], sentence, " ");
  }

  /** Trimming "<intro><text>. <clause>" changes nothing when the clause ends in a non-blank character. */
  lemma TrimSentenceWithClause(intro: string, text: string, clause: string)
    requires intro != [] && !IsTrimmable(intro[0])
    requires clause != [] && !IsTrimmable(clause[|clause| - 1])
    ensures Trim(intro + text + ". " + clause) == intro + text + "." + " " + clause
  {
    var whole := intro + text + ". " + clause;
    assert whole[0] == intro[0] && whole[|whole| - 1] == clause[|clause| - 1];
    assert [] + whole + [] == whole;
    TrimExact([], whole, []);
    assert whole == intro + text + "." + " " + clause;
  }

  /** With a variation clause, the trim leaves the traits sentence as it is. */
  lemma TraitsSentenceWithVariation(lang: Lang, traitsText: string)
    ensures TraitsSentence(lang, traitsText, Variation(lang)) ==
      TraitsLabel(lang) + traitsText + "." + (" " + Variation(lang))
  {
    var intro := TraitsLabel(lang);
    var v := Variation(lang);
    assert !IsTrimmable(intro[0]);
    assert v[|v| - 1] == '.';
    TrimSentenceWithClause(intro, traitsText, v);
    Reassociate(intro + traitsText + ".", " ", v);
  }

  /** Without a variation clause, the trim removes the space after the traits. */
  lemma TraitsSentenceWithoutVariation(lang: Lang, traitsText: string)
    ensures TraitsSentence(lang, traitsText, "") == TraitsLabel(lang) + traitsText + "." + ""
  {
    var intro := TraitsLabel(lang);
    assert !IsTrimmable(intro[0]);
    assert intro + traitsText + ". " + "" == intro + traitsText + ". ";
    TrimSentenceAlone(intro, traitsText);
    assert intro + traitsText + "." + "" == intro + traitsText + ".";
  }

  /** The traits sentence after trimming: only the space before an absent variation is removed. */
  lemma TraitsSentenceShape(lang: Lang, traitsText: string, reroll: bool)
    ensures TraitsSentence(lang, traitsText, if reroll then Variation(lang) else "") ==
      TraitsLabel(lang) + traitsText + "." + (if reroll then " " + Variation(lang) else "")
  {
    if reroll {
      TraitsSentenceWithVariation(lang, traitsText);
    } else {
      TraitsSentenceWithoutVariation(lang, traitsText);
    }
  }

  /**
   * The trim removes only the space left after the traits when there is no
   * variation: a prompt is the preamble, the traits sentence, and the
   * variation clause after one space when rerolling. This holds for any
   * traits text, however it begins or ends.
   */
  lemma PromptShape(lang: Lang, animalType: string, traitsText: string, reroll: bool)
    ensures BuildPrompt(lang, animalType, traitsText, reroll) ==
      Preamble(lang, animalType) + (TraitsLabel(lang) + traitsText + "."
      + (if reroll then " " + Variation(lang) else ""))
  {
    TraitsSentenceShape(lang, traitsText, reroll);
  }

  lemma Reassociate(p: string, q: string, r: string)
    ensures p + (q + r) == p + q + r
  {
  }

  /** Rerolling changes the prompt only by appending the variation clause after a space. */
  lemma RerollAppendsVariation(lang: Lang, animalType: string, traitsText: string)
    ensures BuildPrompt(lang, animalType, traitsText, true) ==
      BuildPrompt(lang, animalType, traitsText, false) + " " + Variation(lang)
  {
    PromptShape(lang, animalType, traitsText, true);
    PromptShape(lang, animalType, traitsText, false);
    var sentence := TraitsLabel(lang) + traitsText + ".";
    assert sentence + "" == sentence;
    Reassociate(Preamble(lang, animalType), sentence, " " + Variation(lang));
    Reassociate(Preamble(lang, animalType) + sentence, " ", Variation(lang));
  }

  /** Where the three inputs sit in a string laid out as the prompt is. */
  lemma MentionsAll(lead: string, x: string, style: string, u: string, sep: string, y: string, z: string, w: string)
    ensures var s := lead + x + style + u + sep + (y + z + w);
      && Contains(s, x) && Contains(s, u) && Contains(s, y)
      && StartsWith(s, lead + x) && StartsWith(s, lead + x + style)
  {
    var s := lead + x + style + u + sep + (y + z + w);
    assert s == lead + x + (style + u + sep + (y + z + w));
    ContainsInside(lead, x, style + u + sep + (y + z + w));
    assert s == (lead + x + style) + u + (sep + (y + z + w));
    ContainsInside(lead + x + style, u, sep + (y + z + w));
    assert s == (lead + x + style + u + sep) + y + (z + w);
    ContainsInside(lead + x + style + u + sep, y, z + w);
    assert s[..|lead + x + style|] == lead + x + style;
    assert s[..|lead + x|] == lead + x;
  }

  /** A prompt is laid out as lead, animal, style, reference URL, separator and traits sentence. */
  lemma PromptLayout(lang: Lang, animalType: string, traitsText: string, reroll: bool)
    ensures BuildPrompt(lang, animalType, traitsText, reroll) ==
      PromptLead(lang) + animalType + PromptStyle(lang) + OutfitReferenceUrl + (". " + TraitsLabel(lang))
      + (traitsText + "." + (if reroll then " " + Variation(lang) else ""))
  {
    PromptShape(lang, animalType, traitsText, reroll);
    Regroup(PromptLead(lang), animalType, PromptStyle(lang), OutfitReferenceUrl, ". ",
      TraitsLabel(lang), traitsText, ".", if reroll then " " + Variation(lang) else "");
  }

  lemma Regroup(a: string, b: string, c: string, d: string, e: string, f: string, g: string, h: string, i: string)
    ensures (a + b + c + d + e) + (f + g + h + i) == a + b + c + d + (e + f) + (g + h + i)
  {
  }

  /** Whatever the language, the prompt names the animal, the traits and the outfit reference. */
  lemma PromptMentions(lang: Lang, animalType: string, traitsText: string, reroll: bool)
    ensures var p := BuildPrompt(lang, animalType, traitsText, reroll);
      Contains(p, OutfitReferenceUrl) && Contains(p, animalType) && Contains(p, traitsText)
  {
    PromptLayout(lang, animalType, traitsText, reroll);
    MentionsAll(PromptLead(lang), animalType, PromptStyle(lang), OutfitReferenceUrl, ". " + TraitsLabel(lang),
      traitsText, ".", if reroll then " " + Variation(lang) else "");
  }

  /**
   * English is selected for `En` and Korean otherwise: the English prompt
   * opens with its lead-in and the animal, the Korean one with the animal
   * and the Korean style text.
   */
  lemma PromptLanguage(lang: Lang, animalType: string, traitsText: string, reroll: bool)
    ensures var p := BuildPrompt(lang, animalType, traitsText, reroll);
      && StartsWith(p, PromptLead(lang) + animalType + PromptStyle(lang))
      && (lang == En ==> StartsWith(p, "Ultra-detailed anime portrait of a real person wearing " + animalType))
      && (lang == Ko ==> StartsWith(p, animalType + PromptStyle(Ko)))
  {
    PromptLayout(lang, animalType, traitsText, reroll);
    MentionsAll(PromptLead(lang), animalType, PromptStyle(lang), OutfitReferenceUrl, ". " + TraitsLabel(lang),
      traitsText, ".", if reroll then " " + Variation(lang) else "");
    if lang == Ko {
      assert PromptLead(lang) + animalType == animalType;
    }
  }

  // ---------------------------------------------------------------------
  // The provider request
  // ---------------------------------------------------------------------

  const FirstSeed := 424242
  const SeedRange := 1000000

  /**
   * The generation seed: fixed for a first generation, and
   * `Math.floor(random * 1000000)` for a reroll, where `random` is the value
   * `Math.random()` returned.
   */
  function Seed(reroll: bool, random: real): (s: nat)
    requires 0.0 <= random < 1.0
    ensures !reroll ==> s == FirstSeed
    ensures reroll ==> s < SeedRange && s as real <= random * SeedRange as real < s as real + 1.0
  {
    if reroll then (random * SeedRange as real).Floor else FirstSeed
  }

  /** What the handler sends to the provider: the prompt, the query parameters in order, and the bearer credential. */
  datatype ProviderRequest = ProviderRequest(prompt: string, query: seq<(string, string)>, bearer: Option<string>)

  /** `URLSearchParams.get`: the value of the first parameter with that name. */
  function QueryValue(query: seq<(string, string)>, name: string): Option<string> {
    if query == [] then None
    else if query[0].0 == name then Some(query[0].1)
    else QueryValue(query[1..], name)
  }

  lemma {:induction false} QueryValueAt(query: seq<(string, string)>, i: nat, name: string)
    requires i < |query| && query[i].0 == name
    requires forall j :: 0 <= j < i ==> query[j].0 != name
    ensures QueryValue(query, name) == Some(query[i].1)
  {
    if i > 0 {
      QueryValueAt(query[1..], i - 1, name);
    }
  }

  lemma {:induction false} QueryValueAbsent(query: seq<(string, string)>, name: string)
    requires forall j :: 0 <= j < |query| ==> query[j].0 != name
    ensures QueryValue(query, name) == None
  {
    if query != [] {
      QueryValueAbsent(query[1..], name);
    }
  }

  /** The query string's parameters in insertion order, the API key last and only when configured. */
  function ProviderQuery(cfg: Config, seed: nat): (query: seq<(string, string)>)
    ensures |query| == if cfg.apiKey != "" then 8 else 7
    ensures query[0] == ("model", cfg.model) && query[3] == ("seed", DecimalString(seed))
    ensures cfg.apiKey != "" ==> query[7] == ("key", cfg.apiKey)
  {
    var base := [
      ("model", cfg.model), ("width", "1024"), ("height", "1024"), ("seed", DecimalString(seed)),
      ("nologo", "true"), ("safe", "true"), ("enhance", "true")];
    if cfg.apiKey != "" then base + [("key", cfg.apiKey)] else base
  }

  /**
   * What the provider reads from the query: the model, a 1024 by 1024
   * size, the seed in decimal, the three flags, and a key exactly when
   * one is configured.
   */
  lemma ProviderQueryValues(cfg: Config, seed: nat)
    ensures var query := ProviderQuery(cfg, seed);
      && QueryValue(query, "model") == Some(cfg.model)
      && QueryValue(query, "width") == Some("1024") && QueryValue(query, "height") == Some("1024")
      && QueryValue(query, "seed") == Some(DecimalString(seed))
      && QueryValue(query, "nologo") == Some("true")
      && QueryValue(query, "safe") == Some("true") && QueryValue(query, "enhance") == Some("true")
      && QueryValue(query, "key") == (if cfg.apiKey != "" then Some(cfg.apiKey) else None)
  {
    var query := ProviderQuery(cfg, seed);
    assert "model" != "width" && "height" != "nologo" && "seed" != "safe";
    QueryValueAt(query, 0, "model");
    QueryValueAt(query, 1, "width");
    QueryValueAt(query, 2, "height");
    QueryValueAt(query, 3, "seed");
    QueryValueAt(query, 4, "nologo");
    QueryValueAt(query, 5, "safe");
    QueryValueAt(query, 6, "enhance");
    if cfg.apiKey != "" {
      QueryValueAt(query, 7, "key");
    } else {
      QueryValueAbsent(query, "key");
    }
  }

  /** The request `generateLookalikeWithPollinations` issues for a normalised request. */
  function BuildProviderRequest(cfg: Config, req: LookalikeRequest, random: real): (pr: ProviderRequest)
    requires 0.0 <= random < 1.0
    ensures pr.bearer.Some? <==> cfg.apiKey != ""
    ensures pr.bearer.Some? ==> pr.bearer.value == cfg.apiKey
    ensures pr.bearer == QueryValue(pr.query, "key")
  {
    ProviderQueryValues(cfg, Seed(req.reroll, random));
    ProviderRequest(
      BuildPrompt(req.lang, req.animalType, req.traitsText, req.reroll),
      ProviderQuery(cfg, Seed(req.reroll, random)),
      if cfg.apiKey != "" then Some(cfg.apiKey) else None)
  }

  /**
   * A first generation does not depend on the random value: the same
   * request always yields the same provider request, with seed 424242.
   */
  lemma FirstGenerationDeterministic(cfg: Config, req: LookalikeRequest, random1: real, random2: real)
    requires !req.reroll
    requires 0.0 <= random1 < 1.0 && 0.0 <= random2 < 1.0
    ensures BuildProviderRequest(cfg, req, random1) == BuildProviderRequest(cfg, req, random2)
    ensures QueryValue(BuildProviderRequest(cfg, req, random1).query, "seed") == Some("424242")
  {
    assert Seed(req.reroll, random1) == Seed(req.reroll, random2) == FirstSeed;
    ProviderQueryValues(cfg, FirstSeed);
    FirstSeedText();
  }

  /** `String(424242)`. */
  lemma FirstSeedText()
    ensures DecimalString(FirstSeed) == "424242"
  {

  }

  // ---------------------------------------------------------------------
  // Shaping the provider's answer
  // ---------------------------------------------------------------------

  /** The provider's HTTP answer, with its body both as text and as bytes. */
  datatype ProviderResponse = ProviderResponse(
    ok: bool, status: nat, errorText: string, contentType: Option<string>, body: seq<Byte>)

  datatype GenerationError =
    | AuthenticationFailed(detail: string)
    | ApiError(status: nat, detail: string)

  datatype LookalikeResult = LookalikeResult(imageDataUrl: string, analysisText: string)

  const ErrorDetailLimit := 260
  const DefaultImageType := "image/jpeg"
  const AuthFailedPrefix :=
    "Pollinations authentication failed. " + "Set POLLINATIONS_API_KEY and restart server. " + "Provider response: "
  const ApiErrorPrefix := "Pollinations API error ("

  /** `errorText.slice(0, 260)`. */
  function ErrorDetail(errorText: string): (d: string)
    ensures |d| == if |errorText| < ErrorDetailLimit then |errorText| else ErrorDetailLimit
    ensures StartsWith(errorText, d)
  {
    if |errorText| <= ErrorDetailLimit then errorText else errorText[..ErrorDetailLimit]
  }

  /** The error a non-OK answer is turned into: 401 means the credential was refused. */
  function ClassifyFailure(resp: ProviderResponse): (e: GenerationError)
    ensures e.AuthenticationFailed? <==> resp.status == 401
    ensures e.ApiError? ==> e.status == resp.status
    ensures e.detail == ErrorDetail(resp.errorText)
  {
    if resp.status == 401 then AuthenticationFailed(ErrorDetail(resp.errorText))
    else ApiError(resp.status, ErrorDetail(resp.errorText))
  }

  /** The `message` of the thrown error. */
  function GenerationErrorMessage(e: GenerationError): (m: string)
    ensures EndsWith(m, e.detail) && |m| > |e.detail|
  {
    match e
    case AuthenticationFailed(detail) => AuthFailedPrefix + detail
    case ApiError(status, detail) => ApiErrorPrefix + DecimalString(status) + "): " + detail
  }

  /**
   * A refused credential, and only that, is reported as an authentication
   * failure; the generic message carries the status, which reads back from
   * it; both end with the first 260 characters of the provider's text.
   */
  lemma FailureMessage(resp: ProviderResponse)
    ensures var m := GenerationErrorMessage(ClassifyFailure(resp));
      var d := ErrorDetail(resp.errorText);
      && (StartsWith(m, AuthFailedPrefix) <==> resp.status == 401)
      && EndsWith(m, d)
      && (resp.status != 401 ==> m == ApiErrorPrefix + DecimalString(resp.status) + "): " + d
                                 && DecimalValue(DecimalString(resp.status)) == resp.status)
  {
    var m := GenerationErrorMessage(ClassifyFailure(resp));
    var d := ErrorDetail(resp.errorText);
    if resp.status == 401 {
      assert m == AuthFailedPrefix + d;
      assert m[..|AuthFailedPrefix|] == AuthFailedPrefix;
    } else {
      assert m[..|ApiErrorPrefix|] == ApiErrorPrefix;
      assert AuthFailedPrefix[13] == 'a' && ApiErrorPrefix[13] == 'A';
      DecimalRoundTrip(resp.status);
    }
    var pre := m[..|m| - |d|];
    assert m == pre + d;
  }

  /** A `data:` URL carrying the payload in base 64. */
  function DataUrl(mime: string, base64: string): (url: string)
    ensures StartsWith(url, "data:") && EndsWith(url, base64)
    ensures |url| == |mime| + |base64| + 13
  {
    "data:" + mime + ";base64," + base64
  }

  /** Index of the last comma in `s`, if any. */
  function LastComma(s: string): (r: Option<nat>)
    ensures r.Some? ==> r.value < |s| && s[r.value] == ',' && forall k :: r.value < k < |s| ==> s[k] != ','
    ensures r.None? ==> forall k :: 0 <= k < |s| ==> s[k] != ','
  {
    if s == [] then None
    else if s[|s| - 1] == ',' then Some(|s| - 1)
    else LastComma(s[..|s| - 1])
  }

  /** Reads a base-64 `data:` URL back into its media type and its bytes. */
  function ParseDataUrl(url: string): Option<(string, seq<Byte>)> {
    match LastComma(url)
    case None => None
    case Some(i) =>
      var head := url[..i];
      if |head| >= 12 && StartsWith(head, "data:") && EndsWith(head, ";base64") then
        match Base64.Decode(url[i + 1..])
        case Some(bytes) => Some((head[5..|head| - 7], bytes))
        case None => None
      else None
  }

  /** The comma found is the one before a comma-free tail. */
  lemma {:induction false} LastCommaBefore(head: string, tail: string)
    requires forall k :: 0 <= k < |tail| ==> tail[k] != ','
    ensures LastComma(head + "," + tail) == Some(|head|)
  {
    var s := head + "," + tail;
    if tail == [] {
      assert s == head + ",";
    } else {
      assert s[|s| - 1] == tail[|tail| - 1];
      assert s[..|s| - 1] == head + "," + tail[..|tail| - 1];
      LastCommaBefore(head, tail[..|tail| - 1]);
    }
  }

  /** A data URL of a base-64 encoding reads back as the media type and the encoded bytes. */
  lemma DataUrlRoundTrip(mime: string, bytes: seq<Byte>)
    ensures ParseDataUrl(DataUrl(mime, Base64.Encode(bytes))) == Some((mime, bytes))
  {
    var enc := Base64.Encode(bytes);
    var head := "data:" + mime + ";base64";
    var url := DataUrl(mime, enc);
    assert url == head + "," + enc;
    assert forall k :: 0 <= k < |enc| ==> enc[k] != ',' by {
      forall k | 0 <= k < |enc| ensures enc[k] != ',' {
        assert Base64.IsEncodingChar(enc[k]);
      }
    }
    LastCommaBefore(head, enc);
    var i := |head|;
    assert url[..i] == head && url[i + 1..] == enc;
    assert head[5..|head| - 7] == mime;
    assert StartsWith(head, "data:") && EndsWith(head, ";base64");
    Base64.DecodeEncode(bytes);
  }

  /** The media type reported by the provider, or JPEG when it gave none. */
  function ImageType(resp: ProviderResponse): (t: string)
    ensures t != ""
    ensures resp.contentType.Some? && resp.contentType.value != "" ==> t == resp.contentType.value
    ensures resp.contentType.None? || resp.contentType.value == "" ==> t == DefaultImageType
  {
    match resp.contentType
    case Some(ct) => if ct != "" then ct else DefaultImageType
    case None => DefaultImageType
  }

  /** The note returned beside the image; it only echoes the request, in its language. */
  function AnalysisText(lang: Lang, traitsText: string, animalType: string): (a: string)
    ensures StartsWith(a, if lang == En then "Applied traits: " else "적용된 특징: ")
  {
    if lang == En then "Applied traits: " + traitsText + ". Animal style: " + animalType + "."
    else "적용된 특징: " + traitsText + ". 동물 스타일: " + animalType + "."
  }

  /** The note is in English exactly for English requests, and names the traits and the animal. */
  lemma AnalysisTextContents(lang: Lang, traitsText: string, animalType: string)
    ensures var a := AnalysisText(lang, traitsText, animalType);
      && (StartsWith(a, "Applied traits: ") <==> lang == En)
      && Contains(a, traitsText) && Contains(a, animalType) && EndsWith(a, animalType + ".")
  {
    var a := AnalysisText(lang, traitsText, animalType);
    if lang == En {
      NoteLayout("Applied traits: ", traitsText, ". Animal style: ", animalType);
    } else {
      NoteLayout("적용된 특징: ", traitsText, ". 동물 스타일: ", animalType);
      assert a[0] == '적';
    }
  }

  /** Where the traits and the animal sit in a note laid out as "<l1><traits><l2><animal>.". */
  lemma NoteLayout(l1: string, t: string, l2: string, x: string)
    ensures var a := l1 + t + l2 + x + ".";
      Contains(a, t) && Contains(a, x) && EndsWith(a, x + ".")
  {
    var a := l1 + t + l2 + x + ".";
    assert a == l1 + t + (l2 + x + ".");
    ContainsInside(l1, t, l2 + x + ".");
    assert a == (l1 + t + l2) + x + ".";
    ContainsInside(l1 + t + l2, x, ".");
    assert a[|a| - |x + "."|..] == x + ".";
  }

  /** The part of `generateLookalikeWithPollinations` after the fetch. */
  function ShapeResponse(req: LookalikeRequest, resp: ProviderResponse): (r: Result<LookalikeResult, GenerationError>)
    ensures r.Failure? <==> !resp.ok
    ensures r.Failure? ==> r.error == ClassifyFailure(resp)
    ensures r.Success? ==>
      r.value.imageDataUrl == DataUrl(ImageType(resp), Base64.Encode(resp.body)) &&
      r.value.analysisText == AnalysisText(req.lang, req.traitsText, req.animalType)
  {
    if !resp.ok then Failure(ClassifyFailure(resp))
    else Success(LookalikeResult(
      DataUrl(ImageType(resp), Base64.Encode(resp.body)),
      AnalysisText(req.lang, req.traitsText, req.animalType)))
  }

  /** The image handed back decodes to exactly the bytes the provider sent, under its media type. */
  lemma ShapedImageDecodes(req: LookalikeRequest, resp: ProviderResponse)
    requires resp.ok
    ensures ParseDataUrl(ShapeResponse(req, resp).value.imageDataUrl) == Some((ImageType(resp), resp.body))
  {
    DataUrlRoundTrip(ImageType(resp), resp.body);
  }

  // ---------------------------------------------------------------------
  // The POST /api/lookalike handler
  // ---------------------------------------------------------------------

  datatype ReplyBody = ErrorJson(error: string) | ResultJson(imageDataUrl: string, analysisText: string)

  datatype Reply = Reply(status: nat, body: ReplyBody)

  /** The reply sent, and the provider requests issued on the way to it. */
  datatype Exchange = Exchange(reply: Reply, calls: seq<ProviderRequest>)

  const PayloadTooLargeMessage := "Payload too large"

  /** The outer `catch`: `err.message || 'Internal Server Error'`, as a 500. */
  function InternalError(message: string): (rep: Reply)
    ensures rep.status == 500 && rep.body.ErrorJson? && rep.body.error != ""
    ensures message != "" ==> rep.body.error == message
    ensures message == "" ==> rep.body.error == "Internal Server Error"
  {
    Reply(500, ErrorJson(if message != "" then message else "Internal Server Error"))
  }

  /** A rejected body: 400 for what the handler checks itself, 500 for the `TypeError` a `null` body raises. */
  function RequestErrorReply(e: RequestError): (rep: Reply)
    ensures e == InvalidJson ==> rep == Reply(400, ErrorJson(InvalidJsonMessage))
    ensures e == MissingImage ==> rep == Reply(400, ErrorJson(MissingImageMessage))
    ensures e == NullBody ==> rep == Reply(500, ErrorJson(NullBodyMessage))
  {
    match e
    case InvalidJson => Reply(400, ErrorJson(InvalidJsonMessage))
    case MissingImage => Reply(400, ErrorJson(MissingImageMessage))
    case NullBody => InternalError(NullBodyMessage)
  }

  /**
   * The POST branch. `read` is what `ReadRequestBody` returned, `parse`
   * stands for UTF-8 decoding followed by `JSON.parse`, `random` for
   * `Math.random()`, and `fetch` for the provider.
   */
  function HandleLookalike(
    cfg: Config, read: BodyRead, parse: seq<Byte> -> ParsedBody, random: real,
    fetch: ProviderRequest -> ProviderResponse): (x: Exchange)
    requires 0.0 <= random < 1.0
    ensures |x.calls| <= 1
    ensures |x.calls| == 1 <==> read.Body? && Normalise(parse(read.bytes)).Success?
    ensures x.reply.status in {200, 400, 500}
    ensures x.reply.status == 200 <==> x.reply.body.ResultJson?
  {
    match read
    case TooLarge(_) => Exchange(InternalError(PayloadTooLargeMessage), [])
    case StreamFailed(message) => Exchange(InternalError(message), [])
    case Body(bytes) =>
      match Normalise(parse(bytes))
      case Failure(e) => Exchange(RequestErrorReply(e), [])
      case Success(req) =>
        var call := BuildProviderRequest(cfg, req, random);
        match ShapeResponse(req, fetch(call))
        case Failure(e) => Exchange(InternalError(GenerationErrorMessage(e)), [call])
        case Success(res) => Exchange(Reply(200, ResultJson(res.imageDataUrl, res.analysisText)), [call])
  }

  /**
   * Nothing reaches the provider unless the body was read in full, parsed,
   * and carried a data:image URL; each rejection has its own reply.
   */
  lemma RejectedBeforeProvider(
    cfg: Config, read: BodyRead, parse: seq<Byte> -> ParsedBody, random: real,
    fetch: ProviderRequest -> ProviderResponse)
    requires 0.0 <= random < 1.0
    ensures var x := HandleLookalike(cfg, read, parse, random, fetch);
      && (read.TooLarge? ==> x == Exchange(Reply(500, ErrorJson(PayloadTooLargeMessage)), []))
      && (read.Body? && parse(read.bytes).Unparseable? ==>
            x == Exchange(Reply(400, ErrorJson(InvalidJsonMessage)), []))
      && (read.Body? && Normalise(parse(read.bytes)) == Failure(MissingImage) ==>
            x == Exchange(Reply(400, ErrorJson(MissingImageMessage)), []))
      && (read.Body? && parse(read.bytes) == Parsed(JNull) ==>
            x == Exchange(Reply(500, ErrorJson(NullBodyMessage)), []))
      && (read.StreamFailed? ==> x == Exchange(InternalError(read.message), []))
      && (x.reply.status == 400 ==> x.calls == [])
  {
  }

  /**
   * A valid request makes exactly one provider call, built from the
   * normalised request; a 200 reply carries the data URL of the provider's
   * bytes and the analysis note, and a failed call becomes a 500 with the
   * classified message.
   */
  lemma AcceptedCallsProviderOnce(
    cfg: Config, read: BodyRead, parse: seq<Byte> -> ParsedBody, random: real,
    fetch: ProviderRequest -> ProviderResponse)
    requires 0.0 <= random < 1.0
    requires read.Body? && Normalise(parse(read.bytes)).Success?
    ensures var req := Normalise(parse(read.bytes)).value;
      var call := BuildProviderRequest(cfg, req, random);
      var resp := fetch(call);
      var x := HandleLookalike(cfg, read, parse, random, fetch);
      && x.calls == [call]
      && (resp.ok ==>
            && x.reply.status == 200
            && ParseDataUrl(x.reply.body.imageDataUrl) == Some((ImageType(resp), resp.body))
            && x.reply.body.analysisText == AnalysisText(req.lang, req.traitsText, req.animalType))
      && (!resp.ok ==> x.reply == Reply(500, ErrorJson(GenerationErrorMessage(ClassifyFailure(resp)))))
  {
    var req := Normalise(parse(read.bytes)).value;
    var call := BuildProviderRequest(cfg, req, random);
    if fetch(call).ok {
      ShapedImageDecodes(req, fetch(call));
    } else {
      var e := ClassifyFailure(fetch(call));
      assert GenerationErrorMessage(e) != "";
    }
  }
}
