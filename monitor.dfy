/**
 * The `UCASOffersMonitor` object: its settings, stored offer count and
 * re-login counter, updated in place by `get_offers_count`,
 * `login_with_credentials`, `handle_auth_failure` and `monitor_offers`.
 * Each method is proved to make exactly the move of the `Control` state
 * machine; `trace` records the calls the object makes to the world outside
 * the core (status requests, pipeline runs, saves, notifications, waits).
 */
module Monitor {
  import opened Wrappers
  import opened Text
  import opened Cookies
  import opened Jwt
  import opened Login
  import opened Poller
  import opened ChangeDetection
  import opened Control

  class OffersMonitor {
    var config: Config
    var lastOffersCount: Option<int>
    var loginRetryCount: nat
    const maxLoginRetries: nat
    var trace: seq<Event>

    /** The retry bound is the fixed one and the counter stays within it. */
    ghost predicate Valid()
      reads this
    {
      maxLoginRetries == MaxLoginRetries && loginRetryCount <= maxLoginRetries
    }

    /** The object's fields as a state of the control loop. */
    function State(): MonitorState
      reads this
    {
      MonitorState(config, lastOffersCount, loginRetryCount, trace)
    }

    /** `__init__`, with the settings that `load_config` read. */
    constructor (loaded: Config)
      ensures Valid()
      ensures State() == MonitorState(loaded, None, 0, [])
    {
      config := loaded;
      lastOffersCount := None;
      loginRetryCount := 0;
      maxLoginRetries := MaxLoginRetries;
      trace := [];
    }

    /** `save_config`: hands the current settings to the store. */
    method SaveConfig()
      modifies this`trace
      ensures trace == old(trace) + [Save(config)]
    {
      trace := trace + [Save(config)];
    }

    /** `send_bark_notification`; its result is ignored by every caller. */
    method SendNotification(notice: Notice)
      modifies this`trace
      ensures trace == old(trace) + [Notify(notice)]
    {
      trace := trace + [Notify(notice)];
    }

    /**
     * `get_offers_count`: sends the stored cookie header and classifies the
     * reply. It may only add to the trace, so it never changes the settings.
     */
    method GetOffersCount(reply: HttpOutcome) returns (result: FetchResult)
      modifies this`trace
      ensures result == Classify(reply)
      ensures trace == old(trace) + [Fetch(CookieHeaderOf(config))]
    {
      trace := trace + [Fetch(CookieHeaderOf(config))];
      result := Classify(reply);
    }

    /**
     * `login_with_credentials`: runs the stages in order, stops at the first
     * failure, and writes `config['cookies']` only when every stage passed.
     */
    method LoginWithCredentials(attempt: LoginAttempt, decode: string -> Option<Claims>) returns (ok: bool)
      modifies this`config, this`trace
      ensures ok == Pipeline(old(config), attempt, decode).LoggedIn?
      ensures config == if ok then old(config)["cookies" := Pipeline(old(config), attempt, decode).header]
                        else old(config)
      ensures trace == old(trace) + [LoginRun]
    {
      trace := trace + [LoginRun];
      if !BootstrapAccepted(attempt.bootstrap) {
        return false;
      }
      if !CredentialsPresent(config) || !LoginAccepted(attempt.login) {
        return false;
      }
      var loginToken := FindLoginToken(attempt.jarAfterLogin);
      if loginToken.None? || loginToken.value == "" {
        return false;
      }
      var jwt := IssuedJwt(attempt.jwt);
      if jwt.None? {
        return false;
      }
      var calledBack := LoginCallback(attempt, jwt.value, decode);
      if !calledBack {
        return false;
      }
      var allCookies := CollectPairs(attempt.jarAfterCallback);
      if allCookies == [] {
        return false;
      }
      assert allCookies == Pairs(attempt.jarAfterCallback);
      config := config["cookies" := Join(allCookies, PairSeparator)];
      return true;
    }

    /**
     * `handle_auth_failure`: gives up without credentials or with the budget
     * spent, otherwise counts the attempt and runs the pipeline; a success is
     * saved and resets the counter.
     */
    method HandleAuthFailure(attempt: LoginAttempt, decode: string -> Option<Claims>) returns (ok: bool)
      requires Valid()
      modifies this
      ensures Valid()
      ensures var rec := Recover(old(State()), attempt, decode);
        State() == rec.state && ok == (rec.verdict == Recovered)
    {
      if !HasCredentials(config) {
        SendNotification(SessionExpired);
        return false;
      }
      if loginRetryCount >= maxLoginRetries {
        SendNotification(RetriesExhausted(maxLoginRetries));
        return false;
      }
      loginRetryCount := loginRetryCount + 1;
      var loggedIn := LoginWithCredentials(attempt, decode);
      if loggedIn {
        SaveConfig();
        loginRetryCount := 0;
        return true;
      } else {
        return false;
      }
    }

    /**
     * The change-detection step of `monitor_offers` for a successful reading:
     * baseline, notify-and-replace, or nothing.
     */
    method ObserveReading(current: int)
      modifies this`lastOffersCount, this`trace
      ensures var d := Detect(old(lastOffersCount), current);
        lastOffersCount == Some(d.last) && trace == old(trace) + NoticeEvents(d.notice)
    {
      if lastOffersCount.None? {
        lastOffersCount := Some(current);
      } else if current != lastOffersCount.value {
        var change := current - lastOffersCount.value;
        var notice := if change > 0 then NewOffer(change, current)
                      else CountChanged(lastOffersCount.value, current);
        SendNotification(notice);
        lastOffersCount := Some(current);
      }
    }

    /**
     * `monitor_offers` over a finite script of cycles: a 401 goes to the
     * recovery controller, any other outcome is observed and followed by the
     * wait. As written (`AsWritten`) any False from the controller leaves the
     * loop; the corrected loop (`Intended`) leaves it only when the controller
     * gives up, and otherwise polls again at once.
     */
    method MonitorOffers(cycles: seq<Cycle>, decode: string -> Option<Claims>, driver: Driver) returns (stopped: bool)
      requires Valid()
      modifies this
      ensures Valid()
      ensures Run(old(State()), cycles, decode, driver) == RunResult(State(), stopped)
    {
      var i := 0;
      stopped := false;
      while i < |cycles| && !stopped
        invariant 0 <= i <= |cycles|
        invariant Valid()
        invariant Run(old(State()), cycles, decode, driver)
          == if stopped then RunResult(State(), true) else Run(State(), cycles[i..], decode, driver)
      {
        ghost var before := State();
        var cycle := cycles[i];
        assert cycles[i..][0] == cycle && cycles[i..][1..] == cycles[i + 1..];
        var current := GetOffersCount(cycle.reply);
        if current == AuthFailed {
          StepOnAuthFailure(before, cycle, decode, driver);
          var givesUp := !HasCredentials(config) || loginRetryCount >= maxLoginRetries;
          var recovered := HandleAuthFailure(cycle.attempt, decode);
          if !recovered && (driver == AsWritten || givesUp) {
            stopped := true;
          }
        } else {
          StepWithoutAuthFailure(before, cycle, decode, driver);
          if current.Offers? {
            ObserveReading(current.count);
          }
          trace := trace + [Sleep];
        }
        assert Step(before, cycle, decode, driver) == StepResult(State(), stopped);
        i := i + 1;
      }
    }
  }
}
