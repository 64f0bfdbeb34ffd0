/**
 * The Gemini adapter: the platform rules table, the platform-dependent fragments of the generation
 * prompt, the request parts, and how the response text (or the error) becomes a listing or a
 * thrown error. The SDK call is the `Model` function from request parts to a `CallOutcome`.
 */
module Gemini {
  import opened Wrappers
  import opened Text
  import opened Domain
  import opened Provider

  /** One row of the platform rules table. */
  datatype PlatformRules = PlatformRules(
    titleLength: string,
    descriptionFormat: string,
    bulletPointsRequired: bool,
    keywordsPurpose: string,
    itemSpecificsImportance: string)

  const AmazonRules: PlatformRules := PlatformRules(
    "Strictly within 150 characters, optimized with core keywords",
    "Can use simple HTML tags for formatting (e.g., <p>, <ul>, <li>, <b>)",
    true,
    "Generate a set of backend search terms to improve visibility within Amazon search, usually not shown directly to buyers",
    "Very important, infer and fill as many relevant attributes as possible based on the provided information")

  const EbayRules: PlatformRules := PlatformRules(
    "Strictly within 80 characters, including the most important keywords",
    "Usually plain text, keep paragraphs clear",
    false,
    "Generate a set of keywords suitable for embedding in the title and description to improve search engine visibility",
    "Important, especially for filtering features, infer based on information")

  /** The display name woven through the prompt: only the exact value "amazon" selects Amazon. */
  function PlatformName(platform: string): (name: string)
    ensures name == "Amazon" <==> platform == "amazon"
    ensures name == "eBay" <==> platform != "amazon"
  {
    if platform == "amazon" then "Amazon" else "eBay"
  }

  /** `platformSpecifics`: Amazon's rules for "amazon", eBay's for every other value. */
  function Rules(platform: string): (r: PlatformRules)
    ensures r.bulletPointsRequired <==> platform == "amazon"
    ensures r == AmazonRules <==> platform == "amazon"
    ensures r == EbayRules <==> platform != "amazon"
  {
    if platform == "amazon" then AmazonRules else EbayRules
  }

  const Bullet1: string := "Bullet 1: Concisely summarize a core advantage"
  const Bullet2: string := "Bullet 2: Highlight another unique feature or benefit"
  const Bullet3: string := "Bullet 3: Describe material, craftsmanship, or quality-related aspects"
  const Bullet4: string := "Bullet 4: Emphasize ease of use, compatibility, or special design"
  const Bullet5: string := "Bullet 5: Mention packaging, accessories, or after-sales support (if applicable)"
  const FeaturePointsInstruction: string := "Generate 3-5 key feature points based on the description to enrich the content"

  /** The `bulletPoints` entry of the JSON template: five example bullets when the platform
      requires bullet points, otherwise one instruction to produce three to five feature points. */
  function BulletTemplate(rules: PlatformRules): (r: seq<string>)
    ensures |r| == (if rules.bulletPointsRequired then 5 else 1)
  {
    if rules.bulletPointsRequired then [Bullet1, Bullet2, Bullet3, Bullet4, Bullet5]
    else [FeaturePointsInstruction]
  }

  /** The attribute names of the template's `itemSpecifics` object. */
  function SpecificsTemplateKeys(platform: string): seq<string> {
    [ "Brand", "Material", "Color", "Size/Dimensions", "Style",
      if platform == "amazon" then "Model Number" else "MPN",
      if platform == "amazon" then "Item Weight" else "Weight" ]
  }

  /** The platform-dependent fragments of the generation prompt; its fixed prose is not modelled. */
  datatype GenerationPrompt = GenerationPrompt(
    platformName: string,
    rules: PlatformRules,
    bulletTemplate: seq<string>,
    specificsKeys: seq<string>)

  function PromptFor(platform: string): GenerationPrompt {
    GenerationPrompt(PlatformName(platform), Rules(platform), BulletTemplate(Rules(platform)),
                     SpecificsTemplateKeys(platform))
  }

  /** The prompt follows Amazon's rules exactly for "amazon" and eBay's for any other platform value. */
  lemma PromptSelectsPlatform(platform: string)
    ensures var p := PromptFor(platform);
      && (p.platformName == "Amazon" <==> platform == "amazon")
      && (p.platformName == "eBay" <==> platform != "amazon")
      && (p.rules == AmazonRules <==> platform == "amazon")
      && (p.rules == EbayRules <==> platform != "amazon")
      && |p.bulletTemplate| == (if platform == "amazon" then 5 else 1)
  {
  }

  /** The template's attribute names are distinct, and "Model Number"/"Item Weight" appear exactly
      for Amazon while "MPN"/"Weight" appear for every other platform. */
  lemma SpecificsKeysByPlatform(platform: string)
    ensures var keys := SpecificsTemplateKeys(platform);
      && (forall i, j :: 0 <= i < j < |keys| ==> keys[i] != keys[j])
      && ("Model Number" in keys <==> platform == "amazon")
      && ("Item Weight" in keys <==> platform == "amazon")
      && ("MPN" in keys <==> platform != "amazon")
      && ("Weight" in keys <==> platform != "amazon")
  {
  }

  /** An element of the request's `contents`. */
  datatype Part =
    | PromptPart(prompt: GenerationPrompt)
    | TextPart(text: string)
    | InlineData(mimeType: string, data: string)
    | TranslatePart(target: string, json: string)

  /** The request parts: the prompt and the labelled description, then, when the image is truthy,
      an image label and the image as inline JPEG data. */
  function RequestParts(prompt: GenerationPrompt, desc: string, image: Option<string>): (parts: seq<Part>)
    ensures |parts| == (if Truthy(image) then 4 else 2)
    ensures parts[0] == PromptPart(prompt) && parts[1] == TextPart("\nProduct Description: " + desc)
    ensures (exists i :: 0 <= i < |parts| && parts[i].InlineData?) <==> Truthy(image)
    ensures Truthy(image) ==> parts[3] == InlineData("image/jpeg", image.value)
  {
    var base := [PromptPart(prompt), TextPart("\nProduct Description: " + desc)];
    if Truthy(image) then
      var parts := base + [TextPart("\nProduct Image:"), InlineData("image/jpeg", image.value)];
      assert parts[3].InlineData?;
      parts
    else base
  }

  /** The parts are built by pushing onto the initial two-element array. */
  method BuildParts(prompt: GenerationPrompt, desc: string, image: Option<string>) returns (parts: seq<Part>)
    ensures parts == RequestParts(prompt, desc, image)
  {
    parts := [PromptPart(prompt), TextPart("\nProduct Description: " + desc)];
    if Truthy(image) {
      parts := parts + [TextPart("\nProduct Image:")];
      parts := parts + [InlineData("image/jpeg", image.value)];
    }
  }

  /** The generative model behind the SDK: request parts in, one call outcome out. */
  type Model = seq<Part> -> CallOutcome

  const GenerateErrorPrefix: string := "Gemini内容生成失败: "
  const EmptyGenerateResponse: string := "API返回的响应为空"

  /** The listing returned when the response text is not JSON. */
  function GenerateFallback(desc: string, text: string): (l: Listing)
    ensures l.title <= desc && |l.title| == (if |desc| < 100 then |desc| else 100)
    ensures l.description == text
    ensures l.bulletPoints == [] && l.keywords == [] && l.category == Path([]) && l.itemSpecifics == []
  {
    Listing(Prefix(desc, 100), text, [], [], Path([]), [], [])
  }

  /**
   * `generateContentGemini` after the call: a failed call or an empty text throws, with the
   * generation prefix; JSON text is returned parsed; any other text yields the fallback listing.
   */
  function InterpretGenerate(desc: string, outcome: CallOutcome, decode: Decoder): (r: Result<Listing>)
    ensures r.Err? <==> outcome.Failed? || outcome.text == ""
    ensures r.Err? ==> GenerateErrorPrefix <= r.message
    ensures outcome.Failed? ==> r == Err(GenerateErrorPrefix + outcome.message)
    ensures outcome.Responded? && outcome.text != "" && decode(outcome.text).Some? ==> r == Ok(decode(outcome.text).value)
    ensures outcome.Responded? && outcome.text != "" && decode(outcome.text).None? ==>
              r == Ok(GenerateFallback(desc, outcome.text))
  {
    match outcome
    case Failed(m) => Err(GenerateErrorPrefix + m)
    case Responded(text) =>
      if text == "" then Err(GenerateErrorPrefix + EmptyGenerateResponse)
      else match decode(text)
        case Some(parsed) => Ok(parsed)
        case None => Ok(GenerateFallback(desc, text))
  }

  /** `generateContentGemini(desc, imgB64, platform)`. */
  method GenerateContent(desc: string, image: Option<string>, platform: string, model: Model, decode: Decoder)
    returns (r: Result<Listing>)
    ensures r == InterpretGenerate(desc, model(RequestParts(PromptFor(platform), desc, image)), decode)
  {
    var parts := BuildParts(PromptFor(platform), desc, image);
    var outcome := model(parts);
    r := InterpretGenerate(desc, outcome, decode);
  }

  const TranslateErrorPrefix: string := "Gemini翻译失败: "
  const EmptyTranslateResponse: string := "翻译API返回的响应为空"

  /** The translation request: one text part naming the target language and holding the JSON. */
  function TranslateParts(obj: Listing, target: string, encode: Encoder): (parts: seq<Part>)
    ensures |parts| == 1 && parts[0].TranslatePart?
    ensures parts[0].target == target && parts[0].json == encode(obj)
  {
    [TranslatePart(target, encode(obj))]
  }

  /**
   * `translateContentGemini` after the call: a failed call or an empty text throws with the
   * translation prefix; JSON text is returned parsed; any other text returns the input unchanged.
   */
  function InterpretTranslate(obj: Listing, outcome: CallOutcome, decode: Decoder): (r: Result<Listing>)
    ensures r.Err? <==> outcome.Failed? || outcome.text == ""
    ensures r.Err? ==> TranslateErrorPrefix <= r.message
    ensures outcome.Failed? ==> r == Err(TranslateErrorPrefix + outcome.message)
    ensures outcome.Responded? && outcome.text != "" && decode(outcome.text).Some? ==> r == Ok(decode(outcome.text).value)
    ensures outcome.Responded? && outcome.text != "" && decode(outcome.text).None? ==> r == Ok(obj)
  {
    match outcome
    case Failed(m) => Err(TranslateErrorPrefix + m)
    case Responded(text) =>
      if text == "" then Err(TranslateErrorPrefix + EmptyTranslateResponse)
      else match decode(text)
        case Some(parsed) => Ok(parsed)
        case None => Ok(obj)
  }

  /**
   * `translateContentGemini(obj, target)`: the model is asked once, with the one translation part;
   * its failure or empty answer throws, a JSON answer is the translation, any other answer gives
   * back `obj`.
   */
  function TranslateContent(obj: Listing, target: string, model: Model, encode: Encoder, decode: Decoder): (r: Result<Listing>)
    ensures var o := model(TranslateParts(obj, target, encode));
      && (r.Err? <==> o.Failed? || o.text == "")
      && (r.Err? ==> TranslateErrorPrefix <= r.message)
      && (r.Ok? ==> r.value == obj || decode(o.text) == Some(r.value))
      && (o.Failed? ==> r == Err(TranslateErrorPrefix + o.message))
      && (o.Responded? && o.text != "" && decode(o.text).Some? ==> r == Ok(decode(o.text).value))
      && (o.Responded? && o.text != "" && decode(o.text).None? ==> r == Ok(obj))
  {
    InterpretTranslate(obj, model(TranslateParts(obj, target, encode)), decode)
  }
}
