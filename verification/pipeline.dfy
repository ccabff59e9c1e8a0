/** `loadBookmakers` (script.js): the response is checked, its decoded value
    validated, the entries sorted and handed to the renderer, and any failure
    on the way turned into the single error row of `showError`. */
module Pipeline {
  import opened Wrappers
  import opened Bookmakers

  /** The value the JSON decoder produced. An array holds entries as they are:
      the source never checks the shape of an element. */
  datatype Json =
    | JArray(items: seq<Entry>)
    | JObject
    | JString(text: string)
    | JNumber(number: real)
    | JBool(flag: bool)
    | JNull

  /** What the HTTP client returns: the status code and the outcome of decoding
      the body, a decoder message when the body is not JSON. */
  datatype Response = Response(status: nat, body: Result<Json, string>) {
    /** `response.ok`: a status in the 200 range. */
    predicate Ok() {
      200 <= status <= 299
    }
  }

  /** The three ways a load fails. */
  datatype LoadError = HttpError(status: nat) | ParseError(message: string) | DataShapeError

  /** What the container ends up showing: the rows of the sorted entries, or
      one error row with a message. */
  datatype View = Rows(entries: seq<Entry>) | ErrorRow(message: string)

  const LoadFailedPrefix: string := "Ошибка загрузки: "
  const NoDataMessage: string := "Данные отсутствуют"

  function DigitChar(d: nat): (c: char)
    requires d < 10
    ensures '0' <= c <= '9'
  {
    ('0' as int + d) as char
  }

  /** The decimal text of `n` with no leading zeros, as a template literal
      renders a status number. */
  function Decimal(n: nat): (s: string)
    ensures |s| > 0
    ensures forall i :: 0 <= i < |s| ==> '0' <= s[i] <= '9'
    ensures |s| > 1 ==> s[0] != '0'
  {
    if n < 10 then [DigitChar(n)] else Decimal(n / 10) + [DigitChar(n % 10)]
  }

  /** The number a string of decimal digits denotes. */
  function DecimalValue(s: string): nat
    requires forall i :: 0 <= i < |s| ==> '0' <= s[i] <= '9'
  {
    if |s| == 0 then 0
    else DecimalValue(s[..|s| - 1]) * 10 + (s[|s| - 1] as int - '0' as int)
  }

  /** Reading the decimal text back gives the number: the status in an error
      message is the status the server sent. */
  lemma {:induction false} DecimalRoundTrip(n: nat)
    ensures DecimalValue(Decimal(n)) == n
  {
    if n >= 10 {
      var s := Decimal(n);
      assert s[..|s| - 1] == Decimal(n / 10);
      DecimalRoundTrip(n / 10);
    }
  }

  /** The text `showError` receives for each failure. */
  function Message(e: LoadError): string
  {
    match e
    case HttpError(status) => LoadFailedPrefix + Decimal(status)
    case ParseError(message) => message
    case DataShapeError => NoDataMessage
  }

  /** The first `then`: a non-ok status fails with the status, an undecodable
      body fails with the decoder's message, anything else is the decoded value. */
  function Receive(response: Response): Result<Json, LoadError>
  {
    if !response.Ok() then Failure(HttpError(response.status))
    else
      match response.body
      case Success(json) => Success(json)
      case Failure(message) => Failure(ParseError(message))
  }

  /** The shape check: only a non-empty array gets through, unchanged. */
  function Validate(data: Json): (r: Result<seq<Entry>, LoadError>)
    ensures r.Success? <==> data.JArray? && |data.items| > 0
    ensures r.Success? ==> r.value == data.items
    ensures r.Failure? ==> r.error == DataShapeError
  {
    if data.JArray? && |data.items| > 0 then Success(data.items) else Failure(DataShapeError)
  }

  /** `loadBookmakers(type, subratingId)` with the fetch already answered. */
  function Load(
    response: Response, kind: string, subratingId: Option<string>,
    parseFloat: string -> Option<real>): (v: View)
    ensures v.Rows? <==>
      response.Ok() && response.body.Success? && response.body.value.JArray? &&
      |response.body.value.items| > 0
    ensures v.Rows? ==> |v.entries| > 0
    ensures v.Rows? ==>
      v.entries == SortBy(response.body.value.items, ModeOf(kind, subratingId), parseFloat)
    ensures !response.Ok() ==> v == ErrorRow(LoadFailedPrefix + Decimal(response.status))
    ensures response.Ok() && response.body.Failure? ==> v == ErrorRow(response.body.error)
    ensures response.Ok() && response.body.Success? && !v.Rows? ==> v == ErrorRow(NoDataMessage)
  {
    match Receive(response)
    case Failure(e) => ErrorRow(Message(e))
    case Success(json) =>
      match Validate(json)
      case Failure(e) => ErrorRow(Message(e))
      case Success(entries) => Rows(SortBy(entries, ModeOf(kind, subratingId), parseFloat))
  }

  /** A successful load renders every fetched entry once, and only those. */
  lemma LoadRendersPermutation(
    response: Response, kind: string, subratingId: Option<string>,
    parseFloat: string -> Option<real>)
    requires Load(response, kind, subratingId, parseFloat).Rows?
    ensures multiset(Load(response, kind, subratingId, parseFloat).entries)
      == multiset(response.body.value.items)
  {
  }

  /** A server error 500 shows an error row that ends in "500". */
  lemma Status500Shown(body: Result<Json, string>, kind: string, subratingId: Option<string>,
    parseFloat: string -> Option<real>)
    ensures var v := Load(Response(500, body), kind, subratingId, parseFloat);
      v.ErrorRow? && |v.message| >= 3 && v.message[|v.message| - 3..] == "500"
  {
    assert Decimal(500) == "500" by {
      assert Decimal(5) == "5";
      assert Decimal(50) == "50";
    }
  }

  /** An empty array and a JSON object both end in the error row, never in an
      empty rendering. */
  lemma EmptyOrNonArrayShowsError(kind: string, subratingId: Option<string>,
    parseFloat: string -> Option<real>)
    ensures Load(Response(200, Success(JArray([]))), kind, subratingId, parseFloat)
      == ErrorRow(NoDataMessage)
    ensures Load(Response(200, Success(JObject)), kind, subratingId, parseFloat)
      == ErrorRow(NoDataMessage)
  {
  }
}
