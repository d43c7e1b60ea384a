# Transaction endpoint request validation

A Dafny model of the one endpoint of `Code.py`,
`POST /api/client/<client_id>/transactions`.

The endpoint is the handler `process_transaction` wrapped by two decorators.
`authenticate` runs first. It answers 401 unless the Basic-Auth credentials
equal the fixed pair `user` / `password`. `validate_json_and_dates` runs
second. It answers 422 at the first of these failures:

- the request's content type is not JSON (`request.is_json` is false);
- `date` or `amount` is missing;
- `date` is not a string, or `amount` is not an int, float or bool;
- `date` is not a valid date string;
- a non-empty `start_date` query parameter is not a valid date string;
- a non-empty `end_date` query parameter is not a valid date string.

A date string is valid when `datetime.strptime(s, "%d-%m-%Y")` accepts it.
When every check passes, the handler answers 200 and echoes the client id, the
payload and both query parameters.

The model is organised in five modules:

- `Wrappers` holds `Option`, which stands for Python's `None`-or-value.
- `Calendar` holds the calendar rule of `datetime`:
  - years 1 to 9999;
  - months 1 to 12;
  - Gregorian month lengths.

  Its independent check numbers the days of a year, and a proof shows that the
  valid dates of a year correspond one-to-one with 1..365 (or 1..366 in a leap
  year).
- `DateFormat` holds `is_valid_date_format`. It has two parts:
  - the lexical shape that `strptime` matches for `%d-%m-%Y`;
  - the calendar check.

  Its reference description lists every spelling of a date's fields
  (`Spells`). It proves that the parser reads a date from exactly its
  spellings.
- `Transactions` holds the data model:
  - the request, which is already decoded;
  - the rejection reasons;
  - the outcome and the response.

  It also holds the two guards and the handler as the source composes them
  (`Decide`, `Handle`). A reference list of the seven checks, `CheckPasses`,
  sits beside them. Two lemmas prove that the composition accepts exactly the
  requests that pass all seven checks, and that it rejects at the first
  failing one.
- `TransactionProperties` holds properties across requests:
  - the error texts identify the failure;
  - earlier checks decide regardless of later inputs;
  - the echo is unchanged;
  - worked examples of accepted and rejected dates.

The error message at Code.py:37 says `Use 'DD-MM-YYYY'`, but the code does not
enforce zero-padding:
Python's `%d` and `%m` accept one digit (`5-3-2024`), and `%d` also accepts a
space and one digit (` 5-03-2024`). The model follows the code
(`TransactionProperties.OneDigitFields`, `TransactionProperties.SpacePaddedDay`).
Year `0000` has the shape of `%Y`, but `datetime` rejects it because the
minimum year is 1.

## Model

| member | source | states |
|---|---|---|
| Calendar.DaysInMonth | Code.py:51 | A month has 31 days exactly for January, March, May, July, August, October and December. It has 30 days exactly for April, June, September and November. February has 29 days exactly in leap years and 28 otherwise. |
| Calendar.ValidDate | Code.py:51 | The calendar check `strptime` applies when it builds the date: year 1 to 9999, month 1 to 12, day 1 to the month's length. It has no contract of its own; it is specified by `Calendar.DaysInMonth` and `Calendar.LeapDay`, and by the bijection of `Calendar.DateOfDayOfYear` and `Calendar.DayOfYearOfDate` between a year's valid dates and its day numbers. |
| Calendar.LeapDay | Code.py:51 | 29 February is a real date exactly in the leap years from 1 to 9999. 1900 and 2023 are not leap years; 2000 and 2024 are. |
| Calendar.MonthsFillYear | Code.py:51 | The twelve month lengths add up to the year's length (365 or 366). |
| Calendar.DaysBeforeMonthGrows | Code.py:51 | Later months never start earlier in the year. |
| Calendar.DayOfYear | Code.py:51 | A real date is numbered within 1 to the length of its year. |
| Calendar.DateOfDay | Code.py:51 | Every day number of a year in 1..9999 names a real date of that year. |
| Calendar.DateOfDayOfYear | Code.py:51 | Numbering a real date and turning the number back gives the same date. |
| Calendar.DayOfYearOfDate | Code.py:51 | Turning a day number into a date and numbering it gives the same number. Together with the previous row, the real dates of a year correspond one-to-one with its day numbers. |
| Calendar.DayOfYearInjective | Code.py:51 | Two real dates of one year with the same day number are the same date. |
| DateFormat.DigitsValue | Code.py:51 | A run of n decimal digits denotes a number below 10^n. |
| DateFormat.PadValue | Code.py:51 | Reading back a number written with a fixed number of digits gives the number, when it fits. |
| DateFormat.ValuePad | Code.py:51 | Writing the value of a run of digits with the run's width gives the run back. |
| DateFormat.IndexOf | Code.py:51 | The result is the position of the first occurrence of the character, or none when the string lacks it. |
| DateFormat.SplitFields | Code.py:51 | A string with two dashes splits into day, month and year texts that rejoin with dashes to the string; the day and month texts hold no dash. |
| DateFormat.SplitJoin | Code.py:51 | Joining dash-free day and month texts to a year text and splitting again gives back the three texts. |
| DateFormat.ParseDayTexts | Code.py:51 | The `%d` field reads a day exactly from that day's spellings: two digits, or one digit or a space and one digit for days below 10. |
| DateFormat.ParseMonthTexts | Code.py:51 | The `%m` field reads a month exactly from its spellings: two digits, or one digit for months below 10. |
| DateFormat.ParseYearTexts | Code.py:51 | The `%Y` field reads a year exactly from its four-digit spelling. |
| DateFormat.Format | Code.py:37 | The zero-padded `DD-MM-YYYY` text named in the error message is one spelling of its date. |
| DateFormat.ParseDate | Code.py:51 | The fields `strptime` reads, before the calendar check. It has no contract of its own; its meaning is given by `DateFormat.ParseDateSpells` (it yields a date exactly from the spellings of that date). |
| DateFormat.IsValidDateFormat | Code.py:49-54 | `is_valid_date_format`. It has no contract of its own; its meaning is given by `DateFormat.ValidFormatIffSpellsValidDate` (true exactly for the strings that spell a real date) and `DateFormat.FormatRoundTrip`. |
| DateFormat.ParseSpelling | Code.py:49-54 | Any spelling of a date parses back to that date. |
| DateFormat.ParsedIsSpelled | Code.py:49-54 | Whatever the parser reads, it reads from a spelling of the result. |
| DateFormat.ParseDateSpells | Code.py:49-54 | The parser yields a date from a string exactly when the string spells that date: no more and no fewer strings than `strptime`'s shape accepts. |
| DateFormat.ValidFormatIffSpellsValidDate | Code.py:49-54 | `is_valid_date_format` is true exactly for the strings that spell a real date. |
| DateFormat.FormatRoundTrip | Code.py:49-54 | The zero-padded text of a date parses back to the date, and it is accepted exactly when the date is real. |
| Transactions.Authenticate | Code.py:14-21 | The auth guard lets a request through exactly when the credentials are present and equal the fixed pair (Code.py:11-12); otherwise it rejects it as unauthorized. |
| Transactions.CheckQueryDate | Code.py:41-44 | A query date is rejected exactly when it is present, non-empty, and spells no real date (no valid date `d` with `Spells(text, d)`), and the rejection names the field and carries the text. |
| Transactions.ValidateJsonAndDates | Code.py:23-47 | The payload guard never answers "unauthorized". It answers "invalid JSON" exactly when the request is not JSON (`request.is_json` is false). A query-date rejection happens only after the body has the right fields, types and a valid date. An `end_date` rejection happens only after `start_date` passed. |
| Transactions.Decide | Code.py:56-70 | The decorated handler, `authenticate` outermost (Code.py:57-58). An accepted request gets the success message, its own client id, its payload unchanged and both raw query parameters. Its check order is stated by `Transactions.DecideRejectsAtFirstFailure` and `Transactions.DecideAcceptsExactlyPassing`. |
| Transactions.DecideRejectsAtFirstFailure | Code.py:14-47 | A rejected request fails the check its rejection names and passes every earlier check, in the order auth, JSON, presence, types, body date, `start_date`, `end_date`. An invalid date is reported with the text that was validated. |
| Transactions.DecideAcceptsExactlyPassing | Code.py:56-70 | The decorated handler accepts a request exactly when it passes all seven checks. |
| Transactions.ErrorText | Code.py:19-44 | The `error` texts of the six early returns, with the field name and value for a bad date. It has no contract of its own; `TransactionProperties.ErrorTextInjective` states that distinct rejections get distinct texts. |
| Transactions.Render | Code.py:19-70 | The status code (with `Status`) and the body of an outcome: 200 exactly for an accepted request, 401 exactly for an unauthorized one, 422 for every other rejection; a rejection's body is its error text and an accepted request's body is its acknowledgement. |
| Transactions.ProcessTransaction | Code.py:59-70 | `process_transaction`'s response dictionary. It has no contract of its own; its echo (the fixed message, the client id, the payload and both raw query parameters) is stated by `Transactions.Decide`, `Transactions.Handle` and `TransactionProperties.ClientIdOnlyEchoed`. |
| Transactions.Handle | Code.py:14-70 | The answer is 401 "Unauthorized" exactly when the credentials differ from the fixed pair. It is 200 exactly when all checks pass, and then it is the success message with the client id, the payload and both query parameters unchanged. Every other request gets 422. |
| TransactionProperties.InvalidDateTextShape | Code.py:37-44 | Every date error text starts with the same prefix, followed by the field name, and ends with a quote. |
| TransactionProperties.OnlyDateTextsAreDateTexts | Code.py:19-34 | No error text other than a date error equals any date error text. |
| TransactionProperties.ErrorTextInjective | Code.py:19-44 | Distinct rejections have distinct error texts, so the failed check, and for a date also the field and the value, can be read back from the text. |
| TransactionProperties.RenderInjective | Code.py:19-70 | Distinct outcomes give distinct HTTP answers. |
| TransactionProperties.UnauthorizedWhateverTheRest | Code.py:17-19 | Missing or wrong credentials give 401 "Unauthorized", whatever the body and query hold, because auth is the outer decorator (Code.py:57-58). |
| TransactionProperties.NotJsonAnsweredFirst | Code.py:26-27 | With valid credentials, a request whose content type is not JSON gives 422 "Invalid JSON payload" before any field is looked at. |
| TransactionProperties.MissingFieldAnswered | Code.py:30-31 | A JSON object missing `date` or `amount` gets the one missing-fields message, whichever is missing and whatever the other's type. |
| TransactionProperties.WrongTypesAnswered | Code.py:33-34 | A non-string `date` or a non-number `amount` gives the data-types message, before any date is parsed. |
| TransactionProperties.BoolAmountPassesTypeCheck | Code.py:33 | A boolean `amount` passes the type check, because a Python bool is an int. The request is then accepted exactly when its dates are valid. |
| TransactionProperties.BodyDecidesBeforeQuery | Code.py:36-44 | A request rejected on its credentials or body gets the same answer whatever its query parameters. |
| TransactionProperties.StartDateBeforeEndDate | Code.py:41-44 | A rejected `start_date` is reported whatever `end_date` holds. |
| TransactionProperties.EmptyStartDateSkipped | Code.py:39-42 | An empty `start_date` is never reported. The request gets the same verdict and, when rejected, the same answer as without `start_date`; when accepted, the echo differs only in the `start_date` it shows. |
| TransactionProperties.EmptyEndDateSkipped | Code.py:39-44 | The same for an empty `end_date`. |
| TransactionProperties.ClientIdOnlyEchoed | Code.py:56-70 | The client id is never checked: changing it changes only the echoed id. |
| TransactionProperties.ExtraFieldPassesThrough | Code.py:29-37 | Adding a field other than `date` and `amount` leaves the verdict unchanged, and the echoed payload holds the field (Code.py:64-69). |
| TransactionProperties.Leap2024 | Code.py:49-54 | `29-02-2024` is accepted. |
| TransactionProperties.NotLeap2023 | Code.py:49-54 | `29-02-2023` is rejected. |
| TransactionProperties.February31 | Code.py:49-54 | `31-02-2024` is rejected. |
| TransactionProperties.April31Invalid | Code.py:49-54 | `31-04-2024` is rejected. |
| TransactionProperties.March5 | Code.py:49-54 | `05-03-2024` is accepted. |
| TransactionProperties.OneDigitFields | Code.py:51 | `5-3-2024` is accepted: the code does not require zero-padding. |
| TransactionProperties.SpacePaddedDay | Code.py:51 | ` 5-03-2024` is accepted. |
| TransactionProperties.TwoDigitYearRejected | Code.py:51 | `05-03-24` is rejected: the year needs four digits. |
| TransactionProperties.IsoOrderRejected | Code.py:51 | `2024-03-05` is rejected. |
| TransactionProperties.SuccessExample | Code.py:56-70 | A valid request for client `123` with date `05-03-2024` and amount `100.5` gets 200 with the message, the id, the payload and null query parameters. |
| TransactionProperties.BadStartDateNamed | Code.py:41-42 | An otherwise accepted request with a non-empty invalid `start_date` gets 422 naming `start_date` and its text. |
| TransactionProperties.April31StartDateExample | Code.py:41-42 | `?start_date=31-04-2024` on an otherwise valid request gets 422 naming `start_date`. |
| TransactionProperties.NoOrderBetweenQueryDates | Code.py:39-44 | No order between `start_date` and `end_date` is enforced: a start after the end is accepted. |

## Left out

- Flask routing, `app.run` and the HTTP server (Code.py:9, 56, 72-73): these are transport, and the model starts from a routed request.
- Decoding the Basic-Auth header: the credentials are given already decoded, as an optional pair.
- JSON parsing and `jsonify` serialisation. The body is given as "not JSON" or as a parsed object, and the response is given as a status with the dictionary that is serialised.
- The content type: `request.is_json` reads the request's mimetype, not its body. A JSON object sent with another content type is modelled as `NotJson`, as the code treats it (422 "Invalid JSON payload").
- Malformed JSON sent with a JSON content type: the framework answers 400 inside `request.get_json()`, which is not this code.
- JSON bodies that are not objects (lists, strings, numbers, null): there `in` means membership or raises, which is framework and interpreter behaviour rather than the checks of this code.
- Float values of `amount`: a float is kept as its literal text, because no check reads its value.
- Non-ASCII digits: Python's `\d` in `%d` and `%Y` also matches other Unicode decimal digits; the model reads ASCII digits only.
- Repeated query parameters: `request.args.get` takes the first value, and the model is given that value.
- Determinism: every operation is a pure function, so equal requests get equal answers by construction, and no lemma states it.
