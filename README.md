# UCAS offers monitor — a verified model of its core

The UCAS offers monitor is a small command-line tool. It uses the applicant's
UCAS session cookie to poll the UCAS Track status endpoint every 60 seconds,
and reads the number of offers from the JSON reply. When that number changes,
it sends a push notification through Bark. When the session expires (HTTP 401)
and the applicant saved a username and password, the tool signs in again. It
runs the UCAS identity-provider login pipeline: a bootstrap, the credential
login, the `glt_` login-token cookie, a JWT, the account callback and the
`UcasIdentity` cookie. It then stores the new cookie header and goes on
polling. Re-login has a budget of `max_login_retries = 2` attempts.

This project models that core in Dafny and proves what it promises:

- `wrappers.dfy`: `Option`.
- `text.dfy`: the Python string operations the core relies on: `split`,
  `join`, `in`, ASCII `lower`, and `strip()`-emptiness. Also split/join
  round trips, and a first-occurrence search used to read a header back.
- `cookies.dfy`: the cookie-jar scans, the `name=value; …` header the monitor
  stores, and a parse-back that recovers the jar from that header.
- `jwt.dfy`: splitting a JWT, re-padding its base64url payload, and the proof
  that only the payload segment is read.
- `poller.dfy`: `get_offers_count` as a classification of one HTTP outcome
  into auth failure, no count, or a count (the `numberOfOffersMade` field
  first, then `totalOffers`, then 0).
- `login.dfy`: `login_with_credentials` as a pipeline of stages that stops at
  the first failing stage.
- `change_detection.dfy`: the offer-count change detector, and what it
  reports over a run of readings.
- `control.dfy`: the monitoring loop and the re-login controller as a pure
  state machine over a finite script of cycles. Each cycle is a poll reply
  plus what the login endpoints would answer. It also holds the properties of
  whole runs.
- `monitor.dfy`: the `UCASOffersMonitor` object itself, a class whose methods
  update its fields in place. Each method that decides something is proved
  equal to the matching function of the model: `Classify`, `Pipeline`,
  `Detect`, `Recover` or `Run`. Saving and notifying each add one event to
  the trace.
- `scenarios.dfy`: concrete runs: baseline then a new offer; a 401 without
  credentials; a server error; a rejected re-login, both as written and as
  intended.

Effects on the outside world are kept as a trace of events on the object:
status fetch with the cookie header, pipeline start, settings save,
notification, wait. What the network answers is an input.

The re-login controller keeps a counter of attempts and a "retries exhausted"
notice for when it reaches `max_login_retries` (lines 473-477). That notice
says that all N re-logins failed, so repeated attempts are expected. The loop
as written leaves after the first failed attempt, so the counter never gets
there. The model follows the code, and it also proves the corrected loop (see
Findings).

## Model

| member | source | states |
|---|---|---|
| Text.Join | ucas_offers_monitor.py:342 | the parts with the separator between neighbours: an empty list joins to the empty text, and the join starts with the first part, followed by the separator when more parts come; JoinSplit and SplitJoin are its inverse laws |
| Text.IsBlank | ucas_offers_monitor.py:383 | a text is blank exactly when stripping its leading whitespace (Python's `str.isspace` characters) leaves nothing |
| Text.StripStartEmpty | ucas_offers_monitor.py:383 | stripping leading whitespace empties exactly the texts made only of whitespace |
| Text.Split | ucas_offers_monitor.py:219 | `str.split` with a separator always yields at least one part |
| Text.Repeat | ucas_offers_monitor.py:226 | `'=' * n` is n copies of the character |
| Text.Lower | ucas_offers_monitor.py:390 | lower-casing keeps the length and maps every character |
| Text.JoinSplit | ucas_offers_monitor.py:219 | joining the parts of a split with the same separator gives back the string |
| Text.SplitJoin | ucas_offers_monitor.py:342 | splitting a join gives back the parts when no part holds the separator's first character |
| Text.SplitWithoutSeparator | ucas_offers_monitor.py:219 | a string without the separator splits into itself alone |
| Text.SplitAfterPart | ucas_offers_monitor.py:219 | a separator-free part followed by the separator splits off as the first part |
| Text.SplitPartsAvoidSeparator | ucas_offers_monitor.py:219 | no part of a split on a character contains that character |
| Text.SplitCount | ucas_offers_monitor.py:219-220 | splitting on a character gives one more part than it has occurrences |
| Text.JoinConsFirst | ucas_offers_monitor.py:342 | a leading character of the first part is the leading character of the join |
| Text.ContainsOccurs | ucas_offers_monitor.py:391 | the substring test holds exactly when the text occurs at some position |
| Cookies.FirstLoginToken | ucas_offers_monitor.py:161-171 | the result is absent iff no cookie name starts with `glt_`; otherwise it is the value of the first such cookie |
| Cookies.FindLoginToken | ucas_offers_monitor.py:161-171 | the scan loop returns exactly the first `glt_` cookie's value |
| Cookies.FindIdentityCookie | ucas_offers_monitor.py:274-280 | the scan loop reports whether a `UcasIdentity` cookie is in the jar |
| Cookies.Pairs | ucas_offers_monitor.py:337-339 | one `name=value` text per cookie |
| Cookies.CookieHeader | ucas_offers_monitor.py:342 | the `; `-joined header is empty exactly when the jar is empty |
| Cookies.CollectPairs | ucas_offers_monitor.py:337-339 | the loop yields, in jar order, `name=value` for every cookie |
| Cookies.ParsePairText | ucas_offers_monitor.py:339 | a `name=value` text parses back to its cookie when the name has no `=` |
| Cookies.HeaderRoundTrip | ucas_offers_monitor.py:337-342 | the stored `; `-joined header of a non-empty, well-formed jar parses back to exactly that jar |
| Jwt.PadPayload | ucas_offers_monitor.py:223-226 | the padded payload is the payload followed by 0–3 `=` characters, and its length is a multiple of 4 |
| Jwt.PadPayloadWellPadded | ucas_offers_monitor.py:223-228 | for base64url text, the padding is well-formed base64 iff the payload length is not 1 modulo 4 |
| Jwt.ParseJwt | ucas_offers_monitor.py:217-233 | claims are produced only for a token with exactly two dots (three segments) |
| Jwt.ParseJwtReadsOnlyPayload | ucas_offers_monitor.py:217-229 | for `header.payload.signature`, the claims are the decoded padded payload, whatever the header and signature are |
| Poller.OfferField | ucas_offers_monitor.py:399 | `numberOfOffersMade` when present, otherwise `totalOffers` when present, otherwise 0 |
| Poller.AcceptedContentTypeOccurs | ucas_offers_monitor.py:390-391 | the content type is accepted exactly when `application/json` or `text/plain` occurs in its lower-cased text |
| Poller.Classify | ucas_offers_monitor.py:361-441 | auth failure iff status 401; a count iff status 200, a non-blank body, a JSON or plain-text content type, and a JSON object whose offer field is a number; the count is `numberOfOffersMade`, else `totalOffers`, else 0 |
| Login.IssuedJwt | ucas_offers_monitor.py:173-215 | a token is issued iff the reply is 200 with `errorCode == 0` and a non-empty `id_token`, and it is that `id_token` |
| Login.LoginCallback | ucas_offers_monitor.py:238-287 | the callback succeeds iff the claims decode to a non-empty object, the POST answers 200, and the jar then holds `UcasIdentity` |
| Login.Pipeline | ucas_offers_monitor.py:289-359 | a login succeeds only with both credentials readable, and stores the header of the jar after the callback, which is never empty |
| Login.PipelineStopsAtFirstFailure | ucas_offers_monitor.py:289-359 | the pipeline fails at a stage iff that stage's check fails and every earlier stage's check passes |
| Login.PipelineSucceedsWhenAllStagesPass | ucas_offers_monitor.py:289-359 | login succeeds iff every stage passes; the stored value is then the header of the non-empty jar after the callback |
| Login.CookieCollectionNeverFails | ucas_offers_monitor.py:341-347 | the empty-jar failure after a successful callback cannot happen |
| ChangeDetection.Detect | ucas_offers_monitor.py:502-519 | the stored count becomes the reading; no notice on the first reading or when unchanged; otherwise a new-offer notice iff the count rose (with the increase and the new total), else a changed notice with old and new counts |
| ChangeDetection.DetectTitle | ucas_offers_monitor.py:508-516 | a notice from the detector is pushed under the new-offer title exactly when the count rose, and under the status-update title otherwise |
| ChangeDetection.DetectIdempotent | ucas_offers_monitor.py:502-519 | observing the same reading twice notifies nothing the second time |
| ChangeDetection.TotalDeltaAppend | ucas_offers_monitor.py:508-515 | the changes reported by notices add up across concatenation |
| ChangeDetection.NoticesTelescope | ucas_offers_monitor.py:502-519 | over any run of readings, the reported changes sum to the last reading minus the baseline |
| ChangeDetection.FirstReadingIsBaseline | ucas_offers_monitor.py:503-505 | the first reading only sets the baseline |
| ChangeDetection.AtMostOneNoticePerReading | ucas_offers_monitor.py:502-519 | at most one notice per reading, and strictly fewer notices than readings when starting without a baseline |
| Control.CookieHeaderOf | ucas_offers_monitor.py:367 | the stored `cookies` value, or the empty text when there is none |
| Control.HasCredentials | ucas_offers_monitor.py:467 | stored non-empty credentials are also readable by the login stage |
| Control.Recover | ucas_offers_monitor.py:466-489 | gives up iff credentials are missing or the counter has reached 2, and then notifies (session expired or retries exhausted) and changes nothing else; otherwise it returns True iff the pipeline logs in; a success stores the new header (the one the next fetch sends), saves, and resets the counter; a failure adds one to the counter; the offer count is never touched |
| Control.Step | ucas_offers_monitor.py:493-523 | each cycle fetches with the stored header first; only an auth failure can stop the loop; no count means wait; a count goes through the detector and then waits |
| Control.Run | ucas_offers_monitor.py:491-530 | a run only extends the event trace |
| Control.RunKeepsRetriesBounded | ucas_offers_monitor.py:473-479 | the re-login counter never exceeds `max_login_retries` |
| Control.StepWithoutAuthFailure | ucas_offers_monitor.py:502-523 | a cycle without a 401 never stops the loop, keeps the settings and the counter, and leaves exactly fetch, notice(s), wait on the trace |
| Control.StepOnAuthFailure | ucas_offers_monitor.py:497-500 | a 401 cycle is the fetch followed by the recovery controller; the loop stops on False (as written) |
| Control.NoticeEventsAreChanges | ucas_offers_monitor.py:506-517 | every notice the loop sends for a reading reports a change of the count |
| Control.StepWithoutAuthFailureCounts | ucas_offers_monitor.py:502-523 | a cycle without a 401 starts no login and sends no "retries exhausted" notice |
| Control.AsWrittenStepFromZero | ucas_offers_monitor.py:479-500 | from a zero counter, one cycle either leaves the counter at zero or stops the loop with the counter at one |
| Control.AsWrittenStopsAfterOneFailedLogin | ucas_offers_monitor.py:466-500 | as written, a run from a zero counter never sends "retries exhausted", and starts the login pipeline at most once when no attempt can succeed |
| Control.IntendedStepCountsAttempts | ucas_offers_monitor.py:466-489 | with the loop continuing after a failed attempt, each pipeline start is matched by one unit on the counter |
| Control.IntendedLoginBudget | ucas_offers_monitor.py:466-489 | with the loop continuing after a failed attempt, the pipeline starts at most `max_login_retries` times in all while nothing succeeds |
| Control.PacedAppend | ucas_offers_monitor.py:521-523 | a fetch block appended after a wait or a save keeps the pacing |
| Control.AsWrittenStepPaced | ucas_offers_monitor.py:493-523 | every fetch after one cycle follows a wait or a successful re-login's save |
| Control.AsWrittenRunPaced | ucas_offers_monitor.py:491-523 | throughout a run, every fetch but the first follows a 60-second wait or a successful re-login (which re-fetches at once) |
| Monitor.OffersMonitor.constructor | ucas_offers_monitor.py:64-69 | starts with the loaded settings, no stored count, counter 0 and budget 2 |
| Monitor.OffersMonitor.SaveConfig | ucas_offers_monitor.py:82-87 | hands the current settings to the store |
| Monitor.OffersMonitor.SendNotification | ucas_offers_monitor.py:443-464 | records one notification |
| Monitor.OffersMonitor.GetOffersCount | ucas_offers_monitor.py:361-441 | fetches with the stored cookie header, returns the classification, and can change nothing but the trace |
| Monitor.OffersMonitor.LoginWithCredentials | ucas_offers_monitor.py:289-359 | returns True iff the pipeline logs in; only then is `cookies` set to the new header; no other setting changes |
| Monitor.OffersMonitor.HandleAuthFailure | ucas_offers_monitor.py:466-489 | the object's new state and the returned flag are exactly those of the recovery controller |
| Monitor.OffersMonitor.ObserveReading | ucas_offers_monitor.py:502-519 | the stored count and the notices sent are exactly those of the detector |
| Monitor.OffersMonitor.MonitorOffers | ucas_offers_monitor.py:491-530 | the loop ends in exactly the state, and with the stop flag, of the state machine's run over the same cycles, both for the loop as written and for the corrected loop that leaves only when the controller gives up |
| Scenarios.BaselineThenNewOffer | ucas_offers_monitor.py:502-523 | readings 3 then 5: a baseline, then one new-offer notice with increase 2 and total 5 |
| Scenarios.UnauthorizedWithoutCredentials | ucas_offers_monitor.py:467-471 | a 401 without stored credentials sends "session expired" and stops the loop |
| Scenarios.ServerErrorWaits | ucas_offers_monitor.py:428-431 | a 500 reply changes nothing and waits |
| Scenarios.RejectedReloginAsWritten | ucas_offers_monitor.py:479-500 | a 401 followed by a rejected login stops the loop after one attempt, with the counter left at 1 |
| Scenarios.RejectedReloginIntended | ucas_offers_monitor.py:466-489 | with the loop continuing, two rejected attempts are followed by the "retries exhausted" notice |

## Left out

- Network traffic (`requests` sessions, URLs, headers, timeouts): every reply is an input of the model. Timeouts and transport exceptions become the "no reply" outcome.
- Reading and writing the JSON settings file (`load_config`, `save_config`'s file I/O): the constructor takes the loaded settings, and a save is one trace event.
- `setup_config`, `run`, `main`, the menus, `show_muse_banner` and `get_version`: interactive front end, outside the monitoring core.
- Bark delivery in `send_bark_notification` (the `bark_key` lookup, URL quoting, the GET): a notification is one trace event. Every caller ignores its result.
- Message bodies of notifications: only the notice's kind and numbers are kept. The exact titles are in `ChangeDetection.Title`; `ChangeDetection.DetectTitle` ties the detector's two to the direction of the change.
- base64url decoding and `json.loads` of the JWT payload: these are the function parameter `decode`.
- The fallback decoding with `utf-8`, `utf-8-sig`, `gbk` and `gb2312` after a JSON error: the reply carries the parsed JSON object or none.
- JSON values other than integers and `null` in the offer fields: with strings or floats the comparison and subtraction behave in ways the model does not follow.
- Unicode lower-casing beyond ASCII in the content-type check.
- How `requests` merges cookies into the session jar: the reply script supplies the jar after the login stage and after the callback.
- The callback request body (email, user types, account id, the random device id from `uuid4`): only whether the callback answers 200 matters to the control flow.
- `time.sleep`, timestamps, and stopping on `KeyboardInterrupt`: a wait is one trace event, and a finite script of cycles stands for the endless loop.
- The generic `except Exception` around one loop pass (lines 528-530): the model has no exception inside a pass, since every failure of the fetch is already a "no count" outcome.
- Monitor.OffersMonitor.LoginWithCredentials: a missing username or password (the `KeyError` at lines 299-300) is folded into the credential-login stage's failure.

## Findings

| source | as written | input that shows it | evidently intended | confidence | as-written member | corrected member |
|---|---|---|---|---|---|---|
| ucas_offers_monitor.py:479-500 | A failed re-login returns False and `monitor_offers` leaves the loop. So the counter is 0 whenever `handle_auth_failure` is entered with credentials, the pipeline runs once per expired session, and the "retries exhausted" notice at lines 473-477 can never be sent. | Credentials stored, a 401 reply, then a login answered with `errorCode` 403042: one pipeline run, then the loop ends with the counter at 1 (`Scenarios.RejectedReloginAsWritten`). | After a failed attempt the loop keeps polling; the next 401 tries again, and after `max_login_retries` failures the user gets the "retries exhausted" notice (`Scenarios.RejectedReloginIntended`). | medium, not executed | Control.AsWrittenStopsAfterOneFailedLogin | Control.IntendedLoginBudget |
