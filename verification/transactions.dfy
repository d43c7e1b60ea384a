/** The request pipeline of `POST /api/client/<client_id>/transactions`.

    The endpoint is the handler `process_transaction`, wrapped first by
    `authenticate` and then by `validate_json_and_dates`. A request passes
    seven checks in order, and the first check that fails decides the answer:
      0. Basic-Auth credentials equal the fixed pair (else 401);
      1. the request declares a JSON content type (else 422);
      2. the JSON object has both `date` and `amount` (else 422);
      3. `date` is a string and `amount` a number (else 422);
      4. `date` is a valid date string (else 422);
      5. `start_date`, when given and non-empty, is a valid date string (else 422);
      6. `end_date`, likewise (else 422).
    When every check passes, the handler echoes the client id, the payload and
    the two query parameters with status 200.

    The request is already decoded: credentials are a pair or absent, the body is
    a parsed JSON object or "not JSON", and query parameters are strings or
    absent. */
module Transactions {
  import opened Wrappers
  import opened Calendar
  import opened DateFormat

  // ---------------------------------------------------------------------------
  // Data model

  /** The fixed credential pair (Code.py `USERNAME`, `PASSWORD`). */
  const Username: string := "user"
  const Password: string := "password"

  const SuccessMessage: string := "Transaction processed successfully"

  /** Decoded HTTP Basic-Auth credentials. */
  datatype Credentials = Credentials(username: string, password: string)

  /** A parsed JSON value. Numbers keep the Python type `json` gives them:
      `Int` for integer literals and `Float` for the rest. A float is kept as
      its literal text, because the pipeline never looks at its value. */
  datatype Value =
    | Str(s: string)
    | Int(i: int)
    | Float(literal: string)
    | Bool(b: bool)
    | Null
    | List(items: seq<Value>)
    | Object(fields: map<string, Value>)

  /** A JSON object body. */
  type Payload = map<string, Value>

  /** The request body, as the pipeline sees it: `request.is_json` false, or
      the object `request.get_json()` returns. */
  datatype Body = NotJson | JsonObject(payload: Payload)

  datatype Request = Request(
    clientId: string,            // the `<client_id>` path segment, unvalidated
    auth: Option<Credentials>,   // `request.authorization`
    body: Body,
    startDate: Option<string>,   // `request.args.get("start_date")`
    endDate: Option<string>      // `request.args.get("end_date")`
  )

  /** The three date strings the pipeline validates. */
  datatype DateField = BodyDate | StartDate | EndDate

  /** Why a request was turned away: one constructor per early return. */
  datatype Rejection =
    | Unauthorized
    | InvalidJson
    | MissingFields
    | InvalidTypes
    | InvalidDate(field: DateField, value: string)

  datatype QueryParameters = QueryParameters(startDate: Option<string>, endDate: Option<string>)

  /** The success body built by `process_transaction`. */
  datatype Acknowledgement = Acknowledgement(
    message: string,
    clientId: string,
    payload: Payload,
    queryParameters: QueryParameters
  )

  datatype Outcome = Rejected(rejection: Rejection) | Accepted(ack: Acknowledgement)

  /** What `jsonify` is given: `{"error": ...}` or the acknowledgement. */
  datatype ResponseBody = ErrorBody(error: string) | SuccessBody(ack: Acknowledgement)

  datatype Response = Response(status: int, body: ResponseBody)

  // ---------------------------------------------------------------------------
  // Python's view of values

  /** `isinstance(v, (int, float))`; `bool` is a subclass of `int`, so `true`
      and `false` count as numbers. */
  predicate IsNumber(v: Value) {
    v.Int? || v.Float? || v.Bool?
  }

  /** Python truthiness of an optional query string: given and non-empty. */
  predicate Truthy(q: Option<string>) {
    q.Some? && q.value != ""
  }

  // ---------------------------------------------------------------------------
  // The guards and the handler, as the source composes them

  /** `authenticate`: compares both parts of the credentials with the fixed pair. */
  function Authenticate(auth: Option<Credentials>): (r: Option<Rejection>)
    ensures r.None? <==> auth == Some(Credentials(Username, Password))
    ensures r.Some? ==> r.value == Unauthorized
  {
    if auth.None? || auth.value.username != Username || auth.value.password != Password then
      Some(Unauthorized)
    else None
  }

  /** A query date is rejected exactly when it is given, non-empty, and spells no
      real date; the rejection names the field and carries the text. */
  function CheckQueryDate(field: DateField, q: Option<string>): (r: Option<Rejection>)
    ensures r.Some? <==> q.Some? && q.value != "" && !(exists d :: ValidDate(d) && Spells(q.value, d))
    ensures r.Some? ==> r.value == InvalidDate(field, q.value)
  {
    match q
    case None => None
    case Some(t) =>
      ValidFormatIffSpellsValidDate(t);
      if t != "" && !IsValidDateFormat(t) then Some(InvalidDate(field, t)) else None
  }

  /** `validate_json_and_dates`: the body checks, then `start_date`, then `end_date`. */
  function ValidateJsonAndDates(body: Body, startDate: Option<string>, endDate: Option<string>): (r: Option<Rejection>)
    ensures r.Some? ==> r.value != Unauthorized
    ensures body.NotJson? <==> r == Some(InvalidJson)
    ensures r.Some? && r.value.InvalidDate? && r.value.field != BodyDate ==>
      body.JsonObject? && HasExpectedTypes(body.payload) && IsValidDateFormat(body.payload["date"].s)
    ensures r.Some? && r.value.InvalidDate? && r.value.field == EndDate ==>
      !Truthy(startDate) || IsValidDateFormat(startDate.value)
  {
    if body.NotJson? then Some(InvalidJson)
    else
      var p := body.payload;
      if "date" !in p || "amount" !in p then Some(MissingFields)
      else if !p["date"].Str? || !IsNumber(p["amount"]) then Some(InvalidTypes)
      else if !IsValidDateFormat(p["date"].s) then Some(InvalidDate(BodyDate, p["date"].s))
      else if CheckQueryDate(StartDate, startDate).Some? then CheckQueryDate(StartDate, startDate)
      else CheckQueryDate(EndDate, endDate)
  }

  /** `process_transaction`: echoes its inputs under the fixed message. */
  function ProcessTransaction(clientId: string, payload: Payload, startDate: Option<string>, endDate: Option<string>): Acknowledgement {
    Acknowledgement(SuccessMessage, clientId, payload, QueryParameters(startDate, endDate))
  }

  /** The decorated endpoint: `authenticate` outermost, then
      `validate_json_and_dates`, then the handler. */
  function Decide(req: Request): (o: Outcome)
    ensures o.Accepted? ==> o.ack.message == SuccessMessage && o.ack.clientId == req.clientId
    ensures o.Accepted? ==> req.body.JsonObject? && o.ack.payload == req.body.payload
    ensures o.Accepted? ==> o.ack.queryParameters == QueryParameters(req.startDate, req.endDate)
  {
    match Authenticate(req.auth)
    case Some(e) =>
      Rejected(e)
    case None =>
      match ValidateJsonAndDates(req.body, req.startDate, req.endDate)
      case Some(e) =>
        Rejected(e)
      case None =>
        Accepted(ProcessTransaction(req.clientId, req.body.payload, req.startDate, req.endDate))
  }

  /** A rejected request fails the check its rejection names and passes every
      earlier one: the first failing check decides the answer. An invalid date
      is reported with the text that was validated. */
  lemma DecideRejectsAtFirstFailure(req: Request)
    requires Decide(req).Rejected?
    ensures !CheckPasses(req, CheckOf(Decide(req).rejection))
    ensures forall k :: 0 <= k < CheckOf(Decide(req).rejection) ==> CheckPasses(req, k)
    ensures Decide(req).rejection.InvalidDate? ==>
      DateText(req, Decide(req).rejection.field) == Some(Decide(req).rejection.value)
  {
  }

  /** A request is accepted exactly when it passes all seven checks. */
  lemma DecideAcceptsExactlyPassing(req: Request)
    ensures Decide(req).Accepted? <==> forall k :: 0 <= k < CheckCount ==> CheckPasses(req, k)
  {
    if Decide(req).Rejected? {
      DecideRejectsAtFirstFailure(req);
    }
  }

  // ---------------------------------------------------------------------------
  // The responses

  function FieldName(f: DateField): string {
    match f
    case BodyDate => "date"
    case StartDate => "start_date"
    case EndDate => "end_date"
  }

  function Status(e: Rejection): int {
    if e.Unauthorized? then 401 else 422
  }

  function ErrorText(e: Rejection): string {
    match e
    case Unauthorized => "Unauthorized"
    case InvalidJson => "Invalid JSON payload"
    case MissingFields => "Missing required fields: 'date' and 'amount'"
    case InvalidTypes => "Invalid data types: 'date' must be a string and 'amount' must be a number"
    case InvalidDate(f, v) => "Invalid date format for '" + FieldName(f) + "': " + v + ". Use 'DD-MM-YYYY'"
  }

  /** The `(jsonify(...), status)` pair returned for an outcome. */
  function Render(o: Outcome): (r: Response)
    ensures r.status == 200 <==> o.Accepted?
    ensures r.status == 401 <==> o.Rejected? && o.rejection.Unauthorized?
    ensures r.body.SuccessBody? <==> o.Accepted?
    ensures o.Rejected? && !o.rejection.Unauthorized? ==> r.status == 422
    ensures o.Rejected? ==> r.body == ErrorBody(ErrorText(o.rejection))
    ensures o.Accepted? ==> r.body == SuccessBody(o.ack)
  {
    match o
    case Rejected(e) => Response(Status(e), ErrorBody(ErrorText(e)))
    case Accepted(ack) => Response(200, SuccessBody(ack))
  }

  /** The endpoint's HTTP answer. 401 is the answer exactly to requests without
      the fixed credentials; 200 exactly to requests that pass every check; 422
      to every other request. */
  function Handle(req: Request): (r: Response)
    ensures r.status == 401 <==> req.auth != Some(Credentials(Username, Password))
    ensures r.status == 401 ==> r.body == ErrorBody("Unauthorized")
    ensures r.status == 200 <==> forall k :: 0 <= k < CheckCount ==> CheckPasses(req, k)
    ensures r.status == 422 <==> req.auth == Some(Credentials(Username, Password)) && !(forall k :: 0 <= k < CheckCount ==> CheckPasses(req, k))
    ensures r.status == 200 ==> req.body.JsonObject? && r.body == SuccessBody(Acknowledgement(SuccessMessage, req.clientId, req.body.payload, QueryParameters(req.startDate, req.endDate)))
  {
    DecideAcceptsExactlyPassing(req);
    assert CheckPasses(req, 0) <==> req.auth == Some(Credentials(Username, Password));
    Render(Decide(req))
  }

  // ---------------------------------------------------------------------------
  // Reference description of the checks

  const CheckCount: nat := 7

  /** The payload fields the checks read. */
  predicate HasRequiredFields(p: Payload) {
    "date" in p && "amount" in p
  }

  predicate HasExpectedTypes(p: Payload) {
    HasRequiredFields(p) && p["date"].Str? && IsNumber(p["amount"])
  }

  /** Check number `k` of the pipeline, in the order listed at the top of the
      module. Each check reads its fields only when the earlier checks made them
      available, so it can be stated on its own. */
  predicate CheckPasses(req: Request, k: nat)
    requires k < CheckCount
  {
    var json := req.body.JsonObject?;
    match k
    case 0 => req.auth.Some? && req.auth.value == Credentials(Username, Password)
    case 1 => json
    case 2 => json ==> HasRequiredFields(req.body.payload)
    case 3 => json && HasRequiredFields(req.body.payload) ==> HasExpectedTypes(req.body.payload)
    case 4 => json && HasExpectedTypes(req.body.payload) ==> IsValidDateFormat(req.body.payload["date"].s)
    case 5 => !Truthy(req.startDate) || IsValidDateFormat(req.startDate.value)
    case 6 => !Truthy(req.endDate) || IsValidDateFormat(req.endDate.value)
  }

  /** The check whose failure produces rejection `e`. */
  function CheckOf(e: Rejection): (k: nat)
    ensures k < CheckCount
  {
    match e
    case Unauthorized => 0
    case InvalidJson => 1
    case MissingFields => 2
    case InvalidTypes => 3
    case InvalidDate(BodyDate, _) => 4
    case InvalidDate(StartDate, _) => 5
    case InvalidDate(EndDate, _) => 6
  }

  /** The text the pipeline validates for `f`, when the request carries one. */
  function DateText(req: Request, f: DateField): Option<string> {
    match f
    case BodyDate =>
      if req.body.JsonObject? && "date" in req.body.payload && req.body.payload["date"].Str?
      then Some(req.body.payload["date"].s) else None
    case StartDate => req.startDate
    case EndDate => req.endDate
  }
}
