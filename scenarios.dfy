/**
 * Worked runs of the monitor loop: the baseline and a new offer, a 401
 * without stored credentials, a 500, and repeated rejected re-logins under
 * the code as written and under the intended retry policy.
 */
module Scenarios {
  import opened Wrappers
  import opened Jwt
  import opened Login
  import opened Poller
  import opened ChangeDetection
  import opened Control

  /** Settings with credentials and an old session. */
  const WithCredentials: Config := map["username" := "applicant", "password" := "secret", "cookies" := "old=1"]

  /** A monitor as `__init__` leaves it. */
  function Fresh(config: Config): MonitorState
  {
    MonitorState(config, None, 0, [])
  }

  /** The status endpoint rejects the session. */
  const Unauthorized: HttpOutcome := Reply(401, "", "", None)

  /** A re-login whose credential POST answers `errorCode != 0`. */
  const RejectedLogin: LoginAttempt := LoginAttempt(
    Posted(200, None), Posted(200, Some(ApiBody(Some(403042), None))), [], PostFailed, PostFailed, [])

  /** A first reading of 3 sets the baseline silently; a reading of 5 then reports two new offers. */
  lemma BaselineThenNewOffer(
    config: Config, three: HttpOutcome, five: HttpOutcome, attempt: LoginAttempt, decode: string -> Option<Claims>)
    requires Classify(three) == Offers(3) && Classify(five) == Offers(5)
    ensures var h := CookieHeaderOf(config);
      Run(Fresh(config), [Cycle(three, attempt), Cycle(five, attempt)], decode, AsWritten)
      == RunResult(MonitorState(config, Some(5), 0, [Fetch(h), Sleep, Fetch(h), Notify(NewOffer(2, 5)), Sleep]), false)
  {
    var cycles := [Cycle(three, attempt), Cycle(five, attempt)];
    var s1 := Step(Fresh(config), cycles[0], decode, AsWritten).state;
    assert cycles[1..] == [Cycle(five, attempt)];
    assert Run(s1, cycles[1..], decode, AsWritten) == Run(Step(s1, cycles[1], decode, AsWritten).state, [], decode, AsWritten);
  }

  /** A 401 without stored credentials sends one notice and ends the loop, whatever follows. */
  lemma UnauthorizedWithoutCredentials(
    config: Config, attempt: LoginAttempt, later: seq<Cycle>, decode: string -> Option<Claims>)
    requires !HasCredentials(config)
    ensures Run(Fresh(config), [Cycle(Unauthorized, attempt)] + later, decode, AsWritten)
      == RunResult(MonitorState(config, None, 0, [Fetch(CookieHeaderOf(config)), Notify(SessionExpired)]), true)
  {
  }

  /** A 500 changes nothing but the trace: a fetch, then the wait. */
  lemma ServerErrorWaits(
    s: MonitorState, text: string, contentType: string, json: Option<JsonObject>,
    attempt: LoginAttempt, decode: string -> Option<Claims>, driver: Driver)
    ensures Run(s, [Cycle(Reply(500, text, contentType, json), attempt)], decode, driver)
      == RunResult(s.(trace := s.trace + [Fetch(CookieHeaderOf(s.config)), Sleep]), false)
  {
  }

  /** The code as written: the first rejected re-login ends the loop; no second attempt, no notice. */
  lemma RejectedReloginAsWritten(decode: string -> Option<Claims>)
    ensures var c := Cycle(Unauthorized, RejectedLogin);
      Run(Fresh(WithCredentials), [c, c, c], decode, AsWritten)
      == RunResult(MonitorState(WithCredentials, None, 1, [Fetch("old=1"), LoginRun]), true)
  {
    assert Pipeline(WithCredentials, RejectedLogin, decode) == Failed(CredentialLogin);
  }

  /**
   * The intended policy: two rejected re-logins, then the "retries exhausted"
   * notice on the third 401, and the loop ends.
   */
  lemma RejectedReloginIntended(decode: string -> Option<Claims>)
    ensures var c := Cycle(Unauthorized, RejectedLogin);
      Run(Fresh(WithCredentials), [c, c, c], decode, Intended)
      == RunResult(MonitorState(WithCredentials, None, 2,
           [Fetch("old=1"), LoginRun, Fetch("old=1"), LoginRun, Fetch("old=1"), Notify(RetriesExhausted(2))]), true)
  {
    var c := Cycle(Unauthorized, RejectedLogin);
    assert Pipeline(WithCredentials, RejectedLogin, decode) == Failed(CredentialLogin);
    var s1 := Step(Fresh(WithCredentials), c, decode, Intended).state;
    assert s1 == MonitorState(WithCredentials, None, 1, [Fetch("old=1"), LoginRun]);
    var s2 := Step(s1, c, decode, Intended).state;
    assert s2 == MonitorState(WithCredentials, None, 2, [Fetch("old=1"), LoginRun, Fetch("old=1"), LoginRun]);
    var st3 := Step(s2, c, decode, Intended);
    assert st3 == StepResult(MonitorState(WithCredentials, None, 2,
      [Fetch("old=1"), LoginRun, Fetch("old=1"), LoginRun, Fetch("old=1"), Notify(RetriesExhausted(2))]), true);
    assert [c, c, c][1..] == [c, c] && [c, c][1..] == [c];
    assert Run(s2, [c], decode, Intended) == RunResult(st3.state, true);
    assert Run(s1, [c, c], decode, Intended) == Run(s2, [c], decode, Intended);
  }
}
