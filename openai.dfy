/**
 * The OpenAI adapter: the chat messages for generation and translation and how the response (or
 * the error) becomes a listing. Neither operation ever throws: every failure yields a fallback.
 * The SDK call is the `ChatModel` function from messages to a `CallOutcome`.
 */
module OpenAI {
  import opened Wrappers
  import opened Text
  import opened Domain
  import opened Provider

  /** The platform named in the generation system prompt. */
  function PlatformLabel(platform: string): (name: string)
    ensures name == "亚马逊" <==> platform == "amazon"
    ensures name == "eBay" <==> platform != "amazon"
  {
    if platform == "amazon" then "亚马逊" else "eBay"
  }

  /** One element of a user message's content array. */
  datatype ContentPart = TextContent(text: string) | ImageUrl(url: string)

  /** A chat message, reduced to the fragments that vary between calls; the fixed prose of the
      two system prompts is not modelled. */
  datatype Message =
    | GenerateSystem(platformLabel: string)
    | UserContent(content: seq<ContentPart>)
    | TranslateSystem(languageName: string)
    | UserText(text: string)

  const ImageUrlPrefix: string := "data:image/jpeg;base64,"

  /** The generation messages: the system prompt, then one user message whose content is the text
      and, exactly when the image is truthy, the image as a JPEG data URL. */
  function Messages(platform: string, text: string, image: Option<string>): (m: seq<Message>)
    ensures |m| == 2 && m[0] == GenerateSystem(PlatformLabel(platform)) && m[1].UserContent?
    ensures |m[1].content| == (if Truthy(image) then 2 else 1)
    ensures m[1].content[0] == TextContent(text)
    ensures (exists i :: 0 <= i < |m[1].content| && m[1].content[i].ImageUrl?) <==> Truthy(image)
    ensures Truthy(image) ==> m[1].content[1] == ImageUrl(ImageUrlPrefix + image.value)
  {
    var content := [TextContent(text)] + (if Truthy(image) then [ImageUrl(ImageUrlPrefix + image.value)] else []);
    assert Truthy(image) ==> content[1].ImageUrl?;
    [GenerateSystem(PlatformLabel(platform)), UserContent(content)]
  }

  /** The messages are built by pushing onto `messages` and onto the user message's content. */
  method BuildMessages(platform: string, text: string, image: Option<string>) returns (messages: seq<Message>)
    ensures messages == Messages(platform, text, image)
  {
    messages := [GenerateSystem(PlatformLabel(platform))];
    var content: seq<ContentPart> := [];
    content := content + [TextContent(text)];
    if Truthy(image) {
      content := content + [ImageUrl(ImageUrlPrefix + image.value)];
    }
    messages := messages + [UserContent(content)];
    assert content == [TextContent(text)] + (if Truthy(image) then [ImageUrl(ImageUrlPrefix + image.value)] else []);
  }

  /** The chat-completion model behind the SDK: messages in, the first choice's content out. */
  type ChatModel = seq<Message> -> CallOutcome

  /** The listing returned on any generation failure. */
  function GenerateFallback(text: string): (l: Listing)
    ensures l.title <= text && |l.title| == (if |text| < 100 then |text| else 100)
    ensures |l.bulletPoints| == 1
    ensures l.keywords == [] && l.category == Path([]) && l.itemSpecifics == []
  {
    Listing(Prefix(text, 100), "无法生成描述，请检查API密钥是否正确配置。", ["请检查OpenAI API配置"],
            [], Path([]), [], [])
  }

  /** `generateContentOpenAI` after the call: parsed JSON when the call succeeded and its text
      parses, the fallback for a failed call or unparseable text. */
  function InterpretGenerate(text: string, outcome: CallOutcome, decode: Decoder): (r: Listing)
    ensures outcome.Responded? && ParseJson(decode, outcome.text).Some? ==> r == ParseJson(decode, outcome.text).value
    ensures outcome.Failed? || ParseJson(decode, outcome.text).None? ==> r == GenerateFallback(text)
    ensures outcome == Responded("") ==> r == GenerateFallback(text)
  {
    if outcome.Responded? && ParseJson(decode, outcome.text).Some? then ParseJson(decode, outcome.text).value
    else GenerateFallback(text)
  }

  /** `generateContentOpenAI(text, imageBase64, platform)`: never throws. */
  method GenerateContent(text: string, image: Option<string>, platform: string, model: ChatModel, decode: Decoder)
    returns (r: Listing)
    ensures r == InterpretGenerate(text, model(Messages(platform, text, image)), decode)
  {
    var messages := BuildMessages(platform, text, image);
    var outcome := model(messages);
    r := InterpretGenerate(text, outcome, decode);
  }

  const LanguageMap: map<string, string> := map["en" := "英语", "de" := "德语", "fr" := "法语", "it" := "意大利语"]

  /** `languageMap[targetLanguage] || targetLanguage`: the Chinese name of the four known codes,
      any other code passed through unchanged. */
  function LanguageName(code: string): (name: string)
    ensures code in LanguageMap ==> name == LanguageMap[code]
    ensures code !in LanguageMap ==> name == code
    ensures name != ""  || code == ""
  {
    if code in LanguageMap then LanguageMap[code] else code
  }

  /** The translation messages: the system prompt naming the target language, then the JSON. */
  function TranslateMessages(content: Listing, target: string, encode: Encoder): (m: seq<Message>)
    ensures |m| == 2 && m[1] == UserText(encode(content))
    ensures target in LanguageMap ==> m[0] == TranslateSystem(LanguageMap[target])
    ensures target !in LanguageMap ==> m[0] == TranslateSystem(target)
  {
    [TranslateSystem(LanguageName(target)), UserText(encode(content))]
  }

  /** `translateContentOpenAI` after the call: the parsed translation, or the original content
      on any failure. */
  function InterpretTranslate(content: Listing, outcome: CallOutcome, decode: Decoder): (r: Listing)
    ensures outcome.Responded? && ParseJson(decode, outcome.text).Some? ==> r == ParseJson(decode, outcome.text).value
    ensures outcome.Failed? || ParseJson(decode, outcome.text).None? ==> r == content
    ensures outcome == Responded("") ==> r == content
  {
    if outcome.Responded? && ParseJson(decode, outcome.text).Some? then ParseJson(decode, outcome.text).value else content
  }

  /** `translateContentOpenAI(content, targetLanguage)`: never throws; a failed call or an answer
      that is not JSON gives back `content`, a JSON answer is the translation. */
  function TranslateContent(content: Listing, target: string, model: ChatModel, encode: Encoder, decode: Decoder): (r: Listing)
    ensures var o := model(TranslateMessages(content, target, encode));
      && (o.Failed? || ParseJson(decode, o.text).None? ==> r == content)
      && (o.Responded? && ParseJson(decode, o.text).Some? ==> r == ParseJson(decode, o.text).value)
      && (r == content || ParseJson(decode, o.text) == Some(r))
  {
    InterpretTranslate(content, model(TranslateMessages(content, target, encode)), decode)
  }
}
