/**
 * The frontend's API service: how each call turns the server's answer, or the absence of one, into
 * a returned value or a thrown error. Axios rejects every answer outside 200-299; `fetch` does not.
 * The server is a function from the request body to its answer.
 */
module ApiService {
  import opened Wrappers
  import opened Text
  import opened Domain
  import opened AiRoutes
  import Records

  /** What a request gets back: an answer with a status and a JSON body, or a network failure
      (no `error.response`). */
  datatype Http<T> = Answered(status: nat, data: T) | NoResponse(message: string)

  predicate Is2xx(status: nat) {
    200 <= status < 300
  }

  /** The decimal digits of `n`. */
  function NatText(n: nat): (r: string)
    ensures |r| >= 1 && forall i :: 0 <= i < |r| ==> '0' <= r[i] <= '9'
  {
    var digit := ['0' + ((n % 10) as char)];
    if n < 10 then digit else NatText(n / 10) + digit
  }

  predicate IsDigitText(s: string) {
    forall i :: 0 <= i < |s| ==> '0' <= s[i] <= '9'
  }

  /** The number a string of decimal digits denotes. */
  function DigitsValue(s: string): nat
    requires IsDigitText(s)
  {
    if s == [] then 0
    else DigitsValue(s[..|s| - 1]) * 10 + (s[|s| - 1] as int - '0' as int)
  }

  /** `${n}`: the digits denote `n`, with no leading zero. */
  lemma {:induction false} NatTextValue(n: nat)
    ensures DigitsValue(NatText(n)) == n
    ensures NatText(n)[0] != '0' || n == 0
  {
    var r := NatText(n);
    if n >= 10 {
      NatTextValue(n / 10);
      assert r[..|r| - 1] == NatText(n / 10);
      assert r[0] == NatText(n / 10)[0];
    } else {
      assert r[..0] == [];
    }
  }

  /** The message of the error Axios throws for an answer outside 200-299. */
  function AxiosStatusMessage(status: nat): string {
    "Request failed with status code " + NatText(status)
  }

  /** A JSON body read as a listing: an object without the listing's fields is the empty listing. */
  function AsListing(body: ResponseBody): Listing {
    if body.ContentBody? then body.listing else EmptyListing
  }

  /** `error.response.data.error`, with "" for a body without one. */
  function ErrorOf(body: ResponseBody): string {
    if body.ContentBody? then "" else body.error
  }

  /** The answer of an AI route as the client receives it. */
  function Delivered(r: Response): Http<ResponseBody> {
    Answered(r.status, r.body)
  }

  const ServerErrorPrefix: string := "服务器错误: "

  /** The server's answer to each `/generate` body. */
  type GenerateSender = GenerateBody -> Http<ResponseBody>

  /**
   * `generateContent(text, platform, imagePath, model)`: an answer in 200-299 is returned as the
   * listing. A rejected call throws "服务器错误: " and the body's `error` when that is non-empty,
   * else returns the body's `fallbackData` when there is one, else rethrows the Axios error.
   */
  function GenerateContent(text: string, platform: string, imagePath: Option<string>, model: string,
                           send: GenerateSender): (r: Result<Listing>)
    ensures var reply := send(GenerateBody(Some(text), Some(platform), imagePath, Some(model)));
      && (reply.NoResponse? ==> r == Err(reply.message))
      && (reply.Answered? && Is2xx(reply.status) ==> r == Ok(AsListing(reply.data)))
      && (reply.Answered? && !Is2xx(reply.status) && ErrorOf(reply.data) != "" ==>
            r == Err(ServerErrorPrefix + ErrorOf(reply.data)))
      && (reply.Answered? && !Is2xx(reply.status) && r.Ok? ==>
            reply.data.FailureBody? && reply.data.error == "" && r.value == reply.data.fallbackData.GetOr(EmptyListing))
      && (reply.Answered? && !Is2xx(reply.status) && ErrorOf(reply.data) == "" && reply.data.FailureBody? ==>
            r == Ok(reply.data.fallbackData.GetOr(EmptyListing)))
      && (r.Ok? <==> reply.Answered? && (Is2xx(reply.status) || (ErrorOf(reply.data) == "" && reply.data.FailureBody?)))
      && (reply.Answered? && !Is2xx(reply.status) && ErrorOf(reply.data) == "" && !reply.data.FailureBody? ==>
            r == Err(AxiosStatusMessage(reply.status)))
  {
    match send(GenerateBody(Some(text), Some(platform), imagePath, Some(model)))
    case NoResponse(m) => Err(m)
    case Answered(status, data) =>
      if Is2xx(status) then Ok(AsListing(data))
      else if ErrorOf(data) != "" then Err(ServerErrorPrefix + ErrorOf(data))
      else if data.FailureBody? then Ok(data.fallbackData.GetOr(EmptyListing))
      else Err(AxiosStatusMessage(status))
  }

  /** Each failure the generate route sends carries a non-empty `error`, so the client throws
      the server error and never shows the route's `fallbackData`. */
  lemma GenerateRouteFailuresThrow(r: Response, details: string,
                                   text: string, platform: string, imagePath: Option<string>, model: string)
    requires r == Response(400, ErrorBody(MissingInputError))
          || r == Response(500, FailureBody(GenerateFailedError, details, Some(GenerateFailureListing)))
    ensures GenerateContent(text, platform, imagePath, model, (b: GenerateBody) => Delivered(r))
              == Err(ServerErrorPrefix + r.body.error)
  {
  }

  /** The server's answer to each `/translate` body. */
  type TranslateSender = TranslateBody -> Http<ResponseBody>

  /** The error `translateContent` throws as written: the identifier `API_BASE_URL` is declared
      nowhere, so evaluating the URL throws before any request is made. */
  const UndefinedBaseUrlMessage: string := "API_BASE_URL is not defined"

  /** `translateContent(content, targetLanguage, model)` as written: it always throws. */
  function TranslateContentAsWritten(content: Listing, targetLanguage: string, model: string,
                                      send: TranslateSender): (r: Result<Listing>)
    ensures r == Err(UndefinedBaseUrlMessage)
  {
    Err(UndefinedBaseUrlMessage)
  }

  /**
   * `translateContent` with the base URL defined as the other calls' `/api`: a network failure
   * throws, an answer outside 200-299 returns the content unchanged, any other answer is returned
   * as the translated listing.
   */
  function TranslateContent(content: Listing, targetLanguage: string, model: string,
                            send: TranslateSender): (r: Result<Listing>)
    ensures var reply := send(TranslateBody(Some(content), Some(targetLanguage), Some(model)));
      && (reply.NoResponse? ==> r == Err(reply.message))
      && (reply.Answered? && !Is2xx(reply.status) ==> r == Ok(content))
      && (reply.Answered? && Is2xx(reply.status) ==> r == Ok(AsListing(reply.data)))
  {
    match send(TranslateBody(Some(content), Some(targetLanguage), Some(model)))
    case NoResponse(m) => Err(m)
    case Answered(status, data) => if Is2xx(status) then Ok(AsListing(data)) else Ok(content)
  }

  /** As written, a successful translation from the server never reaches the page, which instead
      gets the reference error; with the base URL defined, it gets the translation. */
  lemma {:induction false} TranslateAsWrittenLosesTranslation(content: Listing, target: string, model: string, translated: Listing)
    ensures var send := (b: TranslateBody) => Delivered(Response(200, ContentBody(translated)));
      && TranslateContentAsWritten(content, target, model, send) == Err(UndefinedBaseUrlMessage)
      && TranslateContent(content, target, model, send) == Ok(translated)
  {
    var send := (b: TranslateBody) => Delivered(Response(200, ContentBody(translated)));
    assert send(TranslateBody(Some(content), Some(target), Some(model))) == Answered(200, ContentBody(translated));
  }

  /** Whatever body a rejected translate answer carries, the page keeps the content it sent; the
      route's `fallbackData` is that same content, so the two agree. */
  lemma TranslateRouteFailureKeepsContent(content: Listing, target: string, model: string, r: Response)
    requires !Is2xx(r.status)
    ensures TranslateContent(content, target, model, (b: TranslateBody) => Delivered(r)) == Ok(content)
    ensures r.body.FailureBody? && r.body.fallbackData == Some(content) ==>
              TranslateContent(content, target, model, (b: TranslateBody) => Delivered(r)) == Ok(r.body.fallbackData.value)
  {
  }

  /** The upload route's JSON body. */
  datatype UploadReply = UploadReply(success: bool, error: Option<string>, path: Option<string>)

  /** `uploadImage(file)`: the body of an answer in 200-299, otherwise `{ success: false, error,
      path: null }` with the Axios error message. It never throws. */
  function UploadImage(reply: Http<UploadReply>): (r: UploadReply)
    ensures reply.Answered? && Is2xx(reply.status) ==> r == reply.data
    ensures reply.NoResponse? ==> r == UploadReply(false, Some(reply.message), None)
    ensures reply.Answered? && !Is2xx(reply.status) ==> r == UploadReply(false, Some(AxiosStatusMessage(reply.status)), None)
  {
    match reply
    case NoResponse(m) => UploadReply(false, Some(m), None)
    case Answered(status, data) =>
      if Is2xx(status) then data else UploadReply(false, Some(AxiosStatusMessage(status)), None)
  }

  /** The answer of a records route as the client receives it: a `Failure` carries its status,
      every other body comes with 200. */
  function RecordsDelivered(r: Records.RecordsResponse): Http<Records.RecordsResponse> {
    Answered(if r.Failure? then r.status else 200, r)
  }

  /** What `saveRecord` resolves to: the server's body, or `{ success: false, error }`. */
  datatype SaveOutcome = ServerReply(data: Records.RecordsResponse) | SaveFailed(error: string)

  /** `saveRecord(data)`: never throws; a rejected call resolves to `SaveFailed` with the Axios
      error message. */
  function SaveRecord(data: Record, send: Record -> Http<Records.RecordsResponse>): (r: SaveOutcome)
    ensures send(data).Answered? && Is2xx(send(data).status) ==> r == ServerReply(send(data).data)
    ensures send(data).NoResponse? ==> r == SaveFailed(send(data).message)
    ensures send(data).Answered? && !Is2xx(send(data).status) ==> r == SaveFailed(AxiosStatusMessage(send(data).status))
  {
    match send(data)
    case NoResponse(m) => SaveFailed(m)
    case Answered(status, body) =>
      if Is2xx(status) then ServerReply(body) else SaveFailed(AxiosStatusMessage(status))
  }

  /** `getRecords()`: the listed records, or `[]` when the call is rejected. */
  function GetRecords(reply: Http<Records.RecordsResponse>): (r: seq<Record>)
    ensures reply.Answered? && Is2xx(reply.status) && reply.data.Listed? ==> r == reply.data.records
    ensures reply.NoResponse? || !Is2xx(reply.status) ==> r == []
  {
    match reply
    case NoResponse(_) => []
    case Answered(status, data) => if Is2xx(status) && data.Listed? then data.records else []
  }

  /** A failing list route shows the history as empty, and a working one shows exactly the
      records it lists. */
  lemma GetRecordsMatchesRoute(r: Records.RecordsResponse)
    requires r.Listed? || (r.Failure? && r.status == 500)
    ensures GetRecords(RecordsDelivered(r)) == (if r.Listed? then r.records else [])
  {
  }
}
