/**
 * The TokTab API client (src/toktab/api.py): the request each call sends
 * and how the transport's outcome becomes a returned body or one of the
 * two error kinds. The HTTP call itself is a parameter, `transport`.
 */
module Client {

  import opened Wrappers
  import opened Decimal
  import opened Json

  const BaseUrl: string := "https://toktab.com/api"

  /** Seconds `httpx.get` waits before it raises a timeout. */
  const TimeoutSeconds: real := 10.0

  /** The largest result limit a search sends. */
  const MaxSearchLimit: int := 50

  /** The limit `search` uses when its caller gives none. */
  const DefaultSearchLimit: int := 20

  datatype Param = Text(text: string) | Number(number: int)

  /** An `httpx.get` call: URL, query parameters, timeout and redirect following. */
  datatype Request = Request(url: string, params: seq<(string, Param)>, timeout: real, followRedirects: bool)

  /**
   * What `httpx.get` does: raise a timeout (`httpx.TimeoutException`),
   * raise another request error (`httpx.RequestError`, with its text), or
   * return a response with a status code and its decoded body.
   */
  datatype Outcome =
    | TimedOut
    | RequestFailed(detail: string)
    | Responded(status: int, body: Value)

  /** The exceptions the client raises: `ModelNotFoundError` and `APIError`, with their messages. */
  datatype ClientError = ModelNotFound(message: string) | ApiError(message: string)

  const TimeoutMessage: string := "Request timed out. Please try again."
  const InvalidQueryMessage: string := "Invalid search query"

  /** `raise_for_status` lets exactly the 2xx statuses through. */
  predicate IsSuccess(status: int) {
    200 <= status < 300
  }

  function NotFoundMessage(slug: string): string {
    "Model '" + slug + "' not found"
  }

  function StatusMessage(status: int): string {
    "API error: " + IntToString(status)
  }

  function NetworkMessage(detail: string): string {
    "Network error: " + detail
  }

  /** The status code an `API error: <code>` message reports, if it is one. */
  function StatusOfMessage(message: string): Option<int> {
    var prefix := "API error: ";
    if |message| >= |prefix| && message[..|prefix|] == prefix && IsIntLiteral(message[|prefix|..])
    then Some(ParseInt(message[|prefix|..]))
    else None
  }

  /** The message of a status error reports that status. */
  lemma StatusMessageReadBack(status: int)
    ensures StatusOfMessage(StatusMessage(status)) == Some(status)
  {
    var m := StatusMessage(status);
    assert m[..|"API error: "|] == "API error: ";
    assert m[|"API error: "|..] == IntToString(status);
    ParseIntToString(status);
  }

  /** No two error kinds share a message text. */
  lemma MessagesDistinct(status: int, detail: string)
    ensures StatusMessage(status) != TimeoutMessage
    ensures StatusMessage(status) != InvalidQueryMessage
    ensures StatusMessage(status) != NetworkMessage(detail)
    ensures NetworkMessage(detail) != TimeoutMessage && NetworkMessage(detail) != InvalidQueryMessage
  {
    assert StatusMessage(status)[0] == 'A' && StatusMessage(status)[4] == 'e';
    assert NetworkMessage(detail)[0] == 'N';
  }

  // ---- get_model --------------------------------------------------------------

  /** `get_model` requests `BASE_URL/<slug>/`, from which the slug can be read back, with no parameters. */
  function ModelRequest(slug: string): (request: Request)
    ensures SlugOfUrl(request.url) == Some(slug)
    ensures request.params == [] && request.timeout == TimeoutSeconds && request.followRedirects
  {
    var url := BaseUrl + "/" + slug + "/";
    assert url[..|BaseUrl + "/"|] == BaseUrl + "/";
    assert url[|BaseUrl + "/"|..|url| - 1] == slug;
    Request(url, [], TimeoutSeconds, true)
  }

  /** The slug a model URL names, if it is one. */
  function SlugOfUrl(url: string): Option<string> {
    var prefix := BaseUrl + "/";
    if |url| > |prefix| && url[..|prefix|] == prefix && url[|url| - 1] == '/'
    then Some(url[|prefix|..|url| - 1])
    else None
  }

  /**
   * `get_model(slug)`. A 404 raises `ModelNotFoundError` inside the `try`,
   * which the `except` clauses (all for `httpx` exceptions) let through.
   */
  function GetModel(slug: string, transport: Request -> Outcome): (r: Result<Value, ClientError>)
    ensures var outcome := transport(ModelRequest(slug));
      && (r.Success? <==> outcome.Responded? && IsSuccess(outcome.status))
      && (r.Success? ==> r.value == outcome.body)
      && (r.Failure? && r.error.ModelNotFound? <==> outcome.Responded? && outcome.status == 404)
      && (r.Failure? && r.error.ModelNotFound? ==> r.error.message == NotFoundMessage(slug))
      && (outcome.TimedOut? ==> r == Failure(ApiError(TimeoutMessage)))
      && (outcome.RequestFailed? ==> r == Failure(ApiError(NetworkMessage(outcome.detail))))
      && (outcome.Responded? && outcome.status != 404 && !IsSuccess(outcome.status) ==>
            && r.Failure? && r.error.ApiError?
            && r.error.message == "API error: " + IntToString(outcome.status)
            && StatusOfMessage(r.error.message) == Some(outcome.status))
  {
    match transport(ModelRequest(slug))
    case TimedOut => Failure(ApiError(TimeoutMessage))
    case RequestFailed(detail) => Failure(ApiError(NetworkMessage(detail)))
    case Responded(status, body) =>
      if status == 404 then Failure(ModelNotFound(NotFoundMessage(slug)))
      else if !IsSuccess(status) then
        StatusMessageReadBack(status);
        Failure(ApiError(StatusMessage(status)))
      else Success(body)
  }

  // ---- search -----------------------------------------------------------------

  /** `min(limit, 50)`: a cap from above only. */
  function ClampLimit(limit: int): (r: int)
    ensures r <= MaxSearchLimit
    ensures r == limit <==> limit <= MaxSearchLimit
    ensures limit > MaxSearchLimit ==> r == MaxSearchLimit
  {
    if limit < MaxSearchLimit then limit else MaxSearchLimit
  }

  /**
   * `search` sends the query unchanged as `q` and the clamped limit, to
   * `BASE_URL/search`: a limit above 50 is sent as 50, any other limit
   * unchanged, and clamping the sent limit again changes nothing.
   */
  function SearchRequest(query: string, limit: int): (request: Request)
    ensures request.url == BaseUrl + "/search"
    ensures request.timeout == TimeoutSeconds && request.followRedirects
    ensures |request.params| == 2 && request.params[0] == ("q", Text(query))
    ensures request.params[1].0 == "limit" && request.params[1].1.Number?
    ensures request.params[1].1.number <= MaxSearchLimit
    ensures limit <= MaxSearchLimit ==> request.params[1].1.number == limit
    ensures limit > MaxSearchLimit ==> request.params[1].1.number == MaxSearchLimit
    ensures ClampLimit(request.params[1].1.number) == request.params[1].1.number
  {
    Request(BaseUrl + "/search", [("q", Text(query)), ("limit", Number(ClampLimit(limit)))], TimeoutSeconds, true)
  }

  /** `search(query, limit)`. A 400 is reported as an invalid query; nothing is reported as not found. */
  function Search(query: string, limit: int, transport: Request -> Outcome): (r: Result<Value, ClientError>)
    ensures var outcome := transport(SearchRequest(query, limit));
      && (r.Success? <==> outcome.Responded? && IsSuccess(outcome.status))
      && (r.Success? ==> r.value == outcome.body)
      && (r.Failure? ==> r.error.ApiError?)
      && (outcome.TimedOut? ==> r == Failure(ApiError(TimeoutMessage)))
      && (outcome.RequestFailed? ==> r == Failure(ApiError(NetworkMessage(outcome.detail))))
      && (outcome.Responded? && outcome.status == 400 ==> r == Failure(ApiError(InvalidQueryMessage)))
      && (outcome.Responded? && outcome.status != 400 && !IsSuccess(outcome.status) ==>
            && r.Failure?
            && r.error.message == "API error: " + IntToString(outcome.status)
            && StatusOfMessage(r.error.message) == Some(outcome.status))
  {
    match transport(SearchRequest(query, limit))
    case TimedOut => Failure(ApiError(TimeoutMessage))
    case RequestFailed(detail) => Failure(ApiError(NetworkMessage(detail)))
    case Responded(status, body) =>
      if IsSuccess(status) then Success(body)
      else if status == 400 then Failure(ApiError(InvalidQueryMessage))
      else
        StatusMessageReadBack(status);
        Failure(ApiError(StatusMessage(status)))
  }

  /**
   * The source's test cases: a limit of 10 is sent as 10, 100 as 50; there
   * is no lower bound; a search without a limit sends 20.
   */
  lemma SearchLimitExamples()
    ensures SearchRequest("test", DefaultSearchLimit).params[1] == ("limit", Number(20))
    ensures SearchRequest("test", 10).params[1] == ("limit", Number(10))
    ensures SearchRequest("test", 100).params[1] == ("limit", Number(50))
    ensures SearchRequest("test", -5).params[1] == ("limit", Number(-5))
  {
  }

  /** `search` never raises `ModelNotFoundError`, even for a 404. */
  lemma SearchNeverNotFound(query: string, limit: int, transport: Request -> Outcome)
    ensures transport(SearchRequest(query, limit)).Responded? && transport(SearchRequest(query, limit)).status == 404 ==>
      Search(query, limit, transport) == Failure(ApiError("API error: 404"))
  {
    assert IntToString(404) == "404" by {
      assert NatToString(4) == "4";
      assert NatToString(40) == "40";
    }
    assert StatusMessage(404) == "API error: 404";
  }

  /** `get_model` on a 404 and `search` on a 404 raise different kinds. */
  lemma NotFoundOnlyFromGetModel(slug: string, query: string, limit: int, transport: Request -> Outcome)
    requires transport(ModelRequest(slug)).Responded? && transport(ModelRequest(slug)).status == 404
    requires transport(SearchRequest(query, limit)) == transport(ModelRequest(slug))
    ensures GetModel(slug, transport) == Failure(ModelNotFound(NotFoundMessage(slug)))
    ensures Search(query, limit, transport).Failure? && Search(query, limit, transport).error.ApiError?
  {
  }
}
