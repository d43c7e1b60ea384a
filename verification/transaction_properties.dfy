/** Properties of the transaction endpoint: the error answers tell the failures
    apart, the earlier checks decide regardless of the later inputs, the success
    answer echoes its inputs unchanged, and worked examples: accepted and
    rejected dates and one successful request. */
module TransactionProperties {
  import opened Wrappers
  import opened Calendar
  import opened DateFormat
  import opened Transactions

  // ---------------------------------------------------------------------------
  // The answer identifies the failure

  const DatePrefix: string := "Invalid date format for '"

  /** A date error text starts with the common prefix followed by the field
      name, and ends with the closing quote of `'DD-MM-YYYY'`. */
  lemma {:induction false} InvalidDateTextShape(f: DateField, v: string)
    ensures |DatePrefix| == 25
    ensures ErrorText(InvalidDate(f, v))[..25] == DatePrefix
    ensures ErrorText(InvalidDate(f, v))[25] == FieldName(f)[0]
    ensures ErrorText(InvalidDate(f, v))[25..25 + |FieldName(f)|] == FieldName(f)
    ensures ErrorText(InvalidDate(f, v))[|ErrorText(InvalidDate(f, v))| - 1] == '\''
  {
    var t := ErrorText(InvalidDate(f, v));
    assert t == DatePrefix + (FieldName(f) + "': " + v + ". Use 'DD-MM-YYYY'");
  }

  /** No other error text is a date error text: the short ones differ in their
      opening, the data-types message in its last character. */
  lemma {:induction false} OnlyDateTextsAreDateTexts(e: Rejection, f: DateField, v: string)
    requires !e.InvalidDate?
    ensures ErrorText(e) != ErrorText(InvalidDate(f, v))
  {
    InvalidDateTextShape(f, v);
    match e
    case Unauthorized =>
    case InvalidJson =>
    case MissingFields =>
      assert ErrorText(e) == "Missing required fields: 'date' and 'amount'";
      assert ErrorText(e)[..25] == "Missing required fields: ";
    case InvalidTypes =>
      assert ErrorText(e)[|ErrorText(e)| - 1] == 'r';
  }

  /** Distinct rejections have distinct error texts: the failed check and, for a
      date, the field and the offending value can be read back from the text. */
  lemma {:induction false} ErrorTextInjective(e1: Rejection, e2: Rejection)
    requires ErrorText(e1) == ErrorText(e2)
    ensures e1 == e2
  {
    if e1.InvalidDate? && e2.InvalidDate? {
      var t := ErrorText(e1);
      InvalidDateTextShape(e1.field, e1.value);
      InvalidDateTextShape(e2.field, e2.value);
      assert e1.field == e2.field;
      var n := 25 + |FieldName(e1.field)| + 3;
      assert t == (DatePrefix + FieldName(e1.field) + "': ") + e1.value + ". Use 'DD-MM-YYYY'";
      assert t == (DatePrefix + FieldName(e1.field) + "': ") + e2.value + ". Use 'DD-MM-YYYY'";
      assert e1.value == t[n..n + |e1.value|];
    } else if e1.InvalidDate? {
      OnlyDateTextsAreDateTexts(e2, e1.field, e1.value);
    } else if e2.InvalidDate? {
      OnlyDateTextsAreDateTexts(e1, e2.field, e2.value);
    }
  }

  /** Different outcomes give different HTTP answers. */
  lemma RenderInjective(o1: Outcome, o2: Outcome)
    requires Render(o1) == Render(o2)
    ensures o1 == o2
  {
    if o1.Rejected? && o2.Rejected? {
      ErrorTextInjective(o1.rejection, o2.rejection);
    }
  }

  // ---------------------------------------------------------------------------
  // Guard order: later inputs cannot change an earlier verdict

  /** Without the fixed credentials the answer is 401 "Unauthorized", whatever
      the client id, body or query parameters. */
  lemma UnauthorizedWhateverTheRest(req: Request)
    requires req.auth.None? || req.auth.value.username != Username || req.auth.value.password != Password
    ensures Handle(req) == Response(401, ErrorBody("Unauthorized"))
  {
  }

  /** With the right credentials, a request whose content type is not JSON is
      answered before any field or query parameter is looked at. */
  lemma NotJsonAnsweredFirst(req: Request)
    requires req.auth == Some(Credentials(Username, Password))
    requires req.body.NotJson?
    ensures Handle(req) == Response(422, ErrorBody("Invalid JSON payload"))
  {
  }

  /** A JSON object missing `date` or `amount` gets one message, whichever field
      is missing and whatever the type of the other one. */
  lemma MissingFieldAnswered(req: Request)
    requires req.auth == Some(Credentials(Username, Password))
    requires req.body.JsonObject?
    requires "date" !in req.body.payload || "amount" !in req.body.payload
    ensures Handle(req) == Response(422, ErrorBody("Missing required fields: 'date' and 'amount'"))
  {
  }

  /** A `date` that is not a string or an `amount` that is not an int, float or
      bool is answered before any date is parsed. */
  lemma WrongTypesAnswered(req: Request)
    requires req.auth == Some(Credentials(Username, Password))
    requires req.body.JsonObject? && "date" in req.body.payload && "amount" in req.body.payload
    requires !req.body.payload["date"].Str? || !(req.body.payload["amount"].Int? || req.body.payload["amount"].Float? || req.body.payload["amount"].Bool?)
    ensures Handle(req) == Response(422, ErrorBody(
      "Invalid data types: 'date' must be a string and 'amount' must be a number"))
  {
  }

  /** Python booleans are ints: `"amount": true` passes the type check. */
  lemma BoolAmountPassesTypeCheck(req: Request, b: bool)
    requires req.auth == Some(Credentials(Username, Password))
    requires req.body.JsonObject? && "date" in req.body.payload && req.body.payload["date"].Str?
    requires "amount" in req.body.payload && req.body.payload["amount"] == Bool(b)
    ensures Decide(req) != Rejected(InvalidTypes)
    ensures Decide(req).Accepted? <==>
      IsValidDateFormat(req.body.payload["date"].s)
      && (!Truthy(req.startDate) || IsValidDateFormat(req.startDate.value))
      && (!Truthy(req.endDate) || IsValidDateFormat(req.endDate.value))
  {
  }

  /** Request `b` differs from `a` at most in its query parameters. */
  predicate SameButQuery(a: Request, b: Request) {
    a.clientId == b.clientId && a.auth == b.auth && a.body == b.body
  }

  /** A request rejected on its credentials or body gets the same answer whatever
      its query parameters: the body date is checked before either of them. */
  lemma BodyDecidesBeforeQuery(a: Request, b: Request)
    requires SameButQuery(a, b)
    requires Decide(a).Rejected? && CheckOf(Decide(a).rejection) <= 4
    ensures Handle(a) == Handle(b)
  {
    if Authenticate(a.auth).None? {
      PayloadGuardRejected(a);
      BodyCheckRejection(Decide(a).rejection);
      BodyRejectionIgnoresQuery(a.body, a.startDate, a.endDate, b.startDate, b.endDate);
    }
  }

  /** Past the auth guard, a rejection comes from the payload guard. */
  lemma PayloadGuardRejected(req: Request)
    requires Authenticate(req.auth).None? && Decide(req).Rejected?
    ensures ValidateJsonAndDates(req.body, req.startDate, req.endDate) == Some(Decide(req).rejection)
  {
  }

  /** The rejections of checks 0 to 4 name no query date. */
  lemma BodyCheckRejection(e: Rejection)
    requires CheckOf(e) <= 4
    ensures !e.InvalidDate? || e.field == BodyDate
  {
  }

  /** A rejection by one of the body checks does not read the query. */
  lemma BodyRejectionIgnoresQuery(body: Body, start: Option<string>, end: Option<string>,
                                  start': Option<string>, end': Option<string>)
    requires ValidateJsonAndDates(body, start, end).Some?
    requires !ValidateJsonAndDates(body, start, end).value.InvalidDate? ||
             ValidateJsonAndDates(body, start, end).value.field == BodyDate
    ensures ValidateJsonAndDates(body, start', end') == ValidateJsonAndDates(body, start, end)
  {
    if body.JsonObject? {
      var p := body.payload;
      if "date" in p && "amount" in p && p["date"].Str? && IsNumber(p["amount"]) {
        assert !IsValidDateFormat(p["date"].s);
      }
    }
  }

  /** A rejected `start_date` is reported whatever `end_date` holds. */
  lemma StartDateBeforeEndDate(a: Request, b: Request)
    requires SameButQuery(a, b) && a.startDate == b.startDate
    requires Decide(a).Rejected? && Decide(a).rejection.InvalidDate? && Decide(a).rejection.field == StartDate
    ensures Handle(a) == Handle(b)
  {
  }

  /** An empty `start_date` is never validated: `?start_date=` is treated like a
      missing `start_date`, except that the echo keeps the empty string. */
  lemma EmptyStartDateSkipped(req: Request)
    requires req.startDate == Some("")
    ensures Decide(req) != Rejected(InvalidDate(StartDate, ""))
    ensures Decide(req).Accepted? <==> Decide(req.(startDate := None)).Accepted?
    ensures Decide(req).Rejected? ==> Handle(req) == Handle(req.(startDate := None))
    ensures Decide(req).Accepted? ==>
      Decide(req.(startDate := None)).ack == Decide(req).ack.(queryParameters := QueryParameters(None, req.endDate))
  {
    assert CheckQueryDate(StartDate, req.startDate) == None == CheckQueryDate(StartDate, None);
    assert ValidateJsonAndDates(req.body, req.startDate, req.endDate) == ValidateJsonAndDates(req.body, None, req.endDate);
  }

  /** Likewise `?end_date=` is treated like a missing `end_date`, except in the echo. */
  lemma EmptyEndDateSkipped(req: Request)
    requires req.endDate == Some("")
    ensures Decide(req) != Rejected(InvalidDate(EndDate, ""))
    ensures Decide(req).Accepted? <==> Decide(req.(endDate := None)).Accepted?
    ensures Decide(req).Rejected? ==> Handle(req) == Handle(req.(endDate := None))
    ensures Decide(req).Accepted? ==>
      Decide(req.(endDate := None)).ack == Decide(req).ack.(queryParameters := QueryParameters(req.startDate, None))
  {
    assert CheckQueryDate(EndDate, req.endDate) == None == CheckQueryDate(EndDate, None);
    assert ValidateJsonAndDates(req.body, req.startDate, req.endDate) == ValidateJsonAndDates(req.body, req.startDate, None);
  }

  // ---------------------------------------------------------------------------
  // The echo

  /** The client id is echoed and never checked: changing it changes nothing but
      the echoed id. */
  lemma ClientIdOnlyEchoed(req: Request, id: string)
    ensures Decide(req.(clientId := id)).Rejected? <==> Decide(req).Rejected?
    ensures Decide(req).Rejected? ==> Handle(req.(clientId := id)) == Handle(req)
    ensures Decide(req).Accepted? ==> Decide(req.(clientId := id)).ack == Decide(req).ack.(clientId := id)
  {
  }

  /** Fields other than `date` and `amount` are neither checked nor dropped: adding
      one changes nothing but the echoed payload, which then holds it. */
  lemma ExtraFieldPassesThrough(req: Request, key: string, v: Value)
    requires req.body.JsonObject?
    requires key != "date" && key != "amount"
    ensures var req' := req.(body := JsonObject(req.body.payload[key := v]));
      && (Decide(req').Accepted? <==> Decide(req).Accepted?)
      && (Decide(req).Rejected? ==> Handle(req') == Handle(req))
      && (Decide(req').Accepted? ==> Decide(req').ack.payload == req.body.payload[key := v])
  {
    var req' := req.(body := JsonObject(req.body.payload[key := v]));
    var p, p' := req.body.payload, req'.body.payload;
    assert ("date" in p' <==> "date" in p) && ("amount" in p' <==> "amount" in p);
    if "date" in p {
      assert p'["date"] == p["date"];
    }
    if "amount" in p {
      assert p'["amount"] == p["amount"];
    }
  }

  // ---------------------------------------------------------------------------
  // Worked examples

  const April31: string := "31-04-2024"

  lemma PadYear(y: nat)
    requires y == 2023 || y == 2024
    ensures Pad(y, 4) == [DigitChar(2), DigitChar(0), DigitChar(2), DigitChar(y - 2020)]
  {
    assert Pad(y / 1000, 1) == [DigitChar(2)];
  }

  lemma Leap2024(s: string)
    requires s == "29-02-2024"
    ensures IsValidDateFormat(s)
  {
    assert IsLeap(2024) by {
      assert 2024 == 4 * 506 && 2024 == 100 * 20 + 24;
    }
    PadYear(2024);
    assert Format(Date(29, 2, 2024)) == s;
    FormatRoundTrip(Date(29, 2, 2024));
  }

  lemma NotLeap2023(s: string)
    requires s == "29-02-2023"
    ensures !IsValidDateFormat(s)
  {
    PadYear(2023);
    assert Format(Date(29, 2, 2023)) == s;
    FormatRoundTrip(Date(29, 2, 2023));
  }

  lemma February31(s: string)
    requires s == "31-02-2024"
    ensures !IsValidDateFormat(s)
  {
    PadYear(2024);
    assert Format(Date(31, 2, 2024)) == s;
    FormatRoundTrip(Date(31, 2, 2024));
  }

  lemma April31Invalid(s: string)
    requires s == April31
    ensures !IsValidDateFormat(s)
  {
    PadYear(2024);
    assert Format(Date(31, 4, 2024)) == s;
    FormatRoundTrip(Date(31, 4, 2024));
  }

  lemma March5(s: string)
    requires s == "05-03-2024"
    ensures IsValidDateFormat(s)
  {
    PadYear(2024);
    assert Format(Date(5, 3, 2024)) == s;
    FormatRoundTrip(Date(5, 3, 2024));
  }

  /** The code is more lenient than the `DD-MM-YYYY` of its error message:
      one-digit days and months are accepted. */
  lemma OneDigitFields(s: string)
    requires s == "5-3-2024"
    ensures IsValidDateFormat(s)
  {
    PadYear(2024);
    assert "5" in DayTexts(5) && "3" in MonthTexts(3) && "2024" in YearTexts(2024);
    assert s == "5" + "-" + "3" + "-" + "2024";
    ParseSpelling(Date(5, 3, 2024), "5", "3", "2024");
  }

  /** A day may also be written as a space and one digit. */
  lemma SpacePaddedDay(s: string)
    requires s == " 5-03-2024"
    ensures IsValidDateFormat(s)
  {
    PadYear(2024);
    assert Pad(3, 2) == "03";
    assert " 5" in DayTexts(5) && "03" in MonthTexts(3) && "2024" in YearTexts(2024);
    assert s == " 5" + "-" + "03" + "-" + "2024";
    ParseSpelling(Date(5, 3, 2024), " 5", "03", "2024");
  }

  /** The year must still have four digits. */
  lemma TwoDigitYearRejected(s: string)
    requires s == "05-03-24"
    ensures !IsValidDateFormat(s)
  {
    assert s == "05" + ['-'] + "03-24";
    IndexOfJoin("05", '-', "03-24");
    assert s[3..] == "03" + ['-'] + "24";
    IndexOfJoin("03", '-', "24");
    assert s[3..][3..] == "24";
  }

  /** The fields must come day first: an ISO date is not accepted. */
  lemma IsoOrderRejected(s: string)
    requires s == "2024-03-05"
    ensures !IsValidDateFormat(s)
  {
    assert s == "2024" + ['-'] + "03-05";
    IndexOfJoin("2024", '-', "03-05");
    assert s[..4] == "2024";
  }

  /** The success example: client `123`, body `{"date": "05-03-2024", "amount": 100.5}`,
      no query parameters. */
  lemma SuccessExample(date: string, req: Request)
    requires date == "05-03-2024"
    requires req == Request("123", Some(Credentials("user", "password")),
                            JsonObject(map["date" := Str(date), "amount" := Float("100.5")]), None, None)
    ensures Handle(req) == Response(200, SuccessBody(Acknowledgement(
      "Transaction processed successfully", "123", req.body.payload, QueryParameters(None, None))))
  {
    March5(date);
    var p := req.body.payload;
    assert p["date"] == Str(date) && p["amount"] == Float("100.5");
    assert CheckPasses(req, 0) && CheckPasses(req, 1) && CheckPasses(req, 2) && CheckPasses(req, 3);
    assert CheckPasses(req, 4) && CheckPasses(req, 5) && CheckPasses(req, 6);
  }

  /** On a request that would otherwise be accepted, a non-empty `start_date`
      that is not a valid date is rejected, naming `start_date` and the text. */
  lemma BadStartDateNamed(req: Request, start: string)
    requires Decide(req).Accepted?
    requires start != "" && !IsValidDateFormat(start)
    ensures Handle(req.(startDate := Some(start))) == Response(422, ErrorBody(ErrorText(InvalidDate(StartDate, start))))
  {
    assert CheckQueryDate(StartDate, Some(start)) == Some(InvalidDate(StartDate, start));
    assert Authenticate(req.auth).None?;
    assert ValidateJsonAndDates(req.body, req.startDate, req.endDate).None?;
    assert ValidateJsonAndDates(req.body, Some(start), req.endDate) == Some(InvalidDate(StartDate, start));
  }

  /** `?start_date=31-04-2024` on an otherwise valid request is rejected, naming
      `start_date`. */
  lemma April31StartDateExample(req: Request, start: string)
    requires Decide(req).Accepted?
    requires start == "31-04-2024"
    ensures Handle(req.(startDate := Some(start))) == Response(422, ErrorBody(ErrorText(InvalidDate(StartDate, start))))
  {
    April31Invalid(start);
    BadStartDateNamed(req, start);
  }

  /** No order between the two query dates is enforced: a start after the end is
      accepted. */
  lemma NoOrderBetweenQueryDates(req: Request, early: string, late: string)
    requires Decide(req).Accepted?
    requires early == "29-02-2024" && late == "05-03-2024"
    ensures Decide(req.(startDate := Some(early), endDate := Some(late))).Accepted?
    ensures Decide(req.(startDate := Some(late), endDate := Some(early))).Accepted?
  {
    Leap2024(early);
    March5(late);
    assert CheckPasses(req, 0) && CheckPasses(req, 1) && CheckPasses(req, 2) && CheckPasses(req, 3);
    assert CheckPasses(req, 4);
  }
}
