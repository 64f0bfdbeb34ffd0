/**
 * The two AI routes: request validation, reading the uploaded image, dispatch to the provider
 * chosen by `model`, and the 200, 400 and 500 answers. The file system is a map from paths to
 * files; the provider SDKs are the adapters' abstract model functions.
 */
module AiRoutes {
  import opened Wrappers
  import opened Text
  import opened Base64
  import opened Domain
  import opened Provider
  import Gemini
  import OpenAI

  /** A file on disk: its bytes, or a file that exists but cannot be read. */
  datatype FileEntry = Readable(bytes: seq<byte>) | Unreadable

  /** The paths that exist (`fs.existsSync`) and what reading each one gives. */
  type FileSystem = map<string, FileEntry>

  /** The JSON bodies the routes send. A `None` in `FailureBody.fallbackData` stands for the `{}`
      of the translate route's `content || {}` (backend/routes/ai.js:183); that route answers 400
      before it when the content is missing, so every failure it sends carries the content. */
  datatype ResponseBody =
    | ContentBody(listing: Listing)
    | ErrorBody(error: string)
    | FailureBody(error: string, details: string, fallbackData: Option<Listing>)

  datatype Response = Response(status: nat, body: ResponseBody)

  /** `safeReadFile(filePath)`: the file's bytes, or `null` for a falsy path, a missing file or a
      read error. */
  function SafeReadFile(fs: FileSystem, path: Option<string>): (r: Option<seq<byte>>)
    ensures r.Some? <==> Truthy(path) && path.value in fs && fs[path.value].Readable?
    ensures r.Some? ==> r.value == fs[path.value].bytes
  {
    if !Truthy(path) then None
    else if path.value !in fs then None
    else match fs[path.value]
      case Readable(bytes) => Some(bytes)
      case Unreadable => None
  }

  /** The fields of a `/generate` body; an absent field is `undefined`. */
  datatype GenerateBody = GenerateBody(
    text: Option<string>,
    platform: Option<string>,
    imagePath: Option<string>,
    model: Option<string>)

  const MissingInputError: string := "缺少文本或图片内容"
  const GenerateFailedError: string := "内容生成失败"

  /** The listing sent as `fallbackData` when generation throws. */
  const GenerateFailureListing: Listing :=
    Listing("生成失败 - 请重试", "由于服务器错误，无法生成内容。请稍后重试或检查服务器日志获取详细信息。",
            ["服务器处理请求时出错"], [], Path([]), [], [])

  /** The destructuring defaults: `platform = 'amazon'`, `model = 'openai'`. */
  function PlatformOf(body: GenerateBody): string {
    body.platform.GetOr("amazon")
  }

  function ModelOf(body: GenerateBody): string {
    body.model.GetOr("openai")
  }

  /**
   * `imageBase64`: the base64 text of the file at a truthy `imagePath` that can be read, otherwise
   * `null`. A readable empty file gives the empty text, which the adapters treat as no image.
   */
  function ImageFor(body: GenerateBody, fs: FileSystem): (image: Option<string>)
    ensures image.Some? <==> SafeReadFile(fs, body.imagePath).Some?
    ensures image.Some? ==> image.value == Encode(SafeReadFile(fs, body.imagePath).value)
  {
    if Truthy(body.imagePath) then
      match SafeReadFile(fs, body.imagePath)
      case Some(bytes) => Some(Encode(bytes))
      case None => None
    else None
  }

  /** An image file that exists but is empty reaches the providers as no image at all. */
  lemma EmptyImageFileSendsNoImage(body: GenerateBody, fs: FileSystem)
    requires Truthy(body.imagePath) && body.imagePath.value in fs && fs[body.imagePath.value] == Readable([])
    ensures ImageFor(body, fs) == Some("") && !Truthy(ImageFor(body, fs))
    ensures |Gemini.RequestParts(Gemini.PromptFor(PlatformOf(body)), OrEmpty(body.text), ImageFor(body, fs))| == 2
    ensures |OpenAI.Messages(PlatformOf(body), OrEmpty(body.text), ImageFor(body, fs))[1].content| == 1
  {
    EncodeEmptyIff([]);
  }

  /**
   * `POST /generate`. With neither a text nor an image path it answers 400. Otherwise
   * `model === 'gemini'` selects Gemini and any other value OpenAI; the listing the adapter returns
   * is sent with 200, and a thrown error (only Gemini throws) becomes a 500 carrying the error
   * message and the fixed fallback listing.
   */
  method Generate(body: GenerateBody, fs: FileSystem, gemini: Gemini.Model, openai: OpenAI.ChatModel, decode: Decoder)
    returns (res: Response)
    ensures res.status == 400 <==> !Truthy(body.text) && !Truthy(body.imagePath)
    ensures res.status == 400 ==> res.body == ErrorBody(MissingInputError)
    ensures res.status == 200 || res.status == 400 || res.status == 500
    ensures res.status == 200 <==> res.body.ContentBody?
    ensures res.status == 500 ==>
              && ModelOf(body) == "gemini"
              && res.body.FailureBody? && res.body.error == GenerateFailedError
              && Gemini.GenerateErrorPrefix <= res.body.details
              && res.body.fallbackData == Some(GenerateFailureListing)
    ensures res.status != 400 && ModelOf(body) == "gemini" ==>
              match Gemini.InterpretGenerate(OrEmpty(body.text),
                      gemini(Gemini.RequestParts(Gemini.PromptFor(PlatformOf(body)), OrEmpty(body.text), ImageFor(body, fs))), decode)
              case Ok(l) => res == Response(200, ContentBody(l))
              case Err(m) => res == Response(500, FailureBody(GenerateFailedError, m, Some(GenerateFailureListing)))
    ensures res.status != 400 && ModelOf(body) != "gemini" ==>
              res == Response(200, ContentBody(OpenAI.InterpretGenerate(OrEmpty(body.text),
                       openai(OpenAI.Messages(PlatformOf(body), OrEmpty(body.text), ImageFor(body, fs))), decode)))
  {
    if !Truthy(body.text) && !Truthy(body.imagePath) {
      return Response(400, ErrorBody(MissingInputError));
    }
    var imageBase64: Option<string> := None;
    if Truthy(body.imagePath) {
      var imageBuffer := SafeReadFile(fs, body.imagePath);
      if imageBuffer.Some? {
        imageBase64 := Some(Encode(imageBuffer.value));
      }
    }
    var text := OrEmpty(body.text);
    if ModelOf(body) == "gemini" {
      var result := Gemini.GenerateContent(text, imageBase64, PlatformOf(body), gemini, decode);
      match result
      case Ok(l) => res := Response(200, ContentBody(l));
      case Err(m) => res := Response(500, FailureBody(GenerateFailedError, m, Some(GenerateFailureListing)));
    } else {
      var result := OpenAI.GenerateContent(text, imageBase64, PlatformOf(body), openai, decode);
      res := Response(200, ContentBody(result));
    }
  }

  /** The fields of a `/translate` body. */
  datatype TranslateBody = TranslateBody(
    content: Option<Listing>,
    targetLanguage: Option<string>,
    model: Option<string>)

  const MissingTranslateInputError: string := "缺少内容或目标语言"
  const TranslateFailedError: string := "翻译失败"

  /**
   * `POST /translate`. Without content or with a falsy target language it answers 400. Otherwise
   * the provider chosen by `model` translates; its result is sent with 200, and a thrown error
   * (only Gemini throws) becomes a 500 whose `fallbackData` is the untranslated content.
   */
  method Translate(body: TranslateBody, gemini: Gemini.Model, openai: OpenAI.ChatModel, encode: Encoder, decode: Decoder)
    returns (res: Response)
    ensures res.status == 400 <==> body.content.None? || !Truthy(body.targetLanguage)
    ensures res.status == 400 ==> res.body == ErrorBody(MissingTranslateInputError)
    ensures res.status == 200 || res.status == 400 || res.status == 500
    ensures res.status == 200 <==> res.body.ContentBody?
    ensures res.status == 500 ==>
              && body.model == Some("gemini")
              && res.body.FailureBody? && res.body.error == TranslateFailedError
              && Gemini.TranslateErrorPrefix <= res.body.details
              && res.body.fallbackData == body.content
    ensures res.status != 400 && body.model == Some("gemini") ==>
              match Gemini.TranslateContent(body.content.value, body.targetLanguage.value, gemini, encode, decode)
              case Ok(l) => res == Response(200, ContentBody(l))
              case Err(m) => res == Response(500, FailureBody(TranslateFailedError, m, body.content))
    ensures res.status != 400 && body.model != Some("gemini") ==>
              res == Response(200, ContentBody(
                       OpenAI.TranslateContent(body.content.value, body.targetLanguage.value, openai, encode, decode)))
  {
    if body.content.None? || !Truthy(body.targetLanguage) {
      return Response(400, ErrorBody(MissingTranslateInputError));
    }
    var content := body.content.value;
    var target := body.targetLanguage.value;
    if body.model.GetOr("openai") == "gemini" {
      var result := Gemini.TranslateContent(content, target, gemini, encode, decode);
      match result
      case Ok(l) => res := Response(200, ContentBody(l));
      case Err(m) => res := Response(500, FailureBody(TranslateFailedError, m, body.content));
    } else {
      var result := OpenAI.TranslateContent(content, target, openai, encode, decode);
      res := Response(200, ContentBody(result));
    }
  }
}
