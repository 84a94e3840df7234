/**
 * The monitor's control loop as a state machine: one cycle of `monitor_offers`
 * (fetch, classify, recover or detect a change, wait) and the auth recovery
 * controller `handle_auth_failure`. The state is the settings, the stored
 * offer count, the re-login counter, and the trace of everything the monitor
 * asked of the outside world.
 */
module Control {
  import opened Wrappers
  import opened Jwt
  import opened Login
  import opened Poller
  import opened ChangeDetection

  /** `max_login_retries`. */
  const MaxLoginRetries: nat := 2

  /** What the monitor asks of the world outside the core, in order. */
  datatype Event =
    | Fetch(cookieHeader: string) // status request sent with this `Cookie` header
    | LoginRun                    // `login_with_credentials` started
    | Save(config: Config)        // `save_config` with these settings
    | Notify(notice: Notice)      // `send_bark_notification`
    | Sleep                       // `time.sleep(60)`

  /** The fields of the monitor object, plus the trace of its external calls. */
  datatype MonitorState = MonitorState(config: Config, last: Option<int>, retries: nat, trace: seq<Event>)

  /** The input of one loop cycle: the status reply, and the transport's answers should the pipeline run. */
  datatype Cycle = Cycle(reply: HttpOutcome, attempt: LoginAttempt)

  /** How an auth recovery ended; `handle_auth_failure` returns True only for `Recovered`. */
  datatype Verdict = Recovered | AttemptFailed | GaveUp

  datatype Recovery = Recovery(state: MonitorState, verdict: Verdict)
  datatype StepResult = StepResult(state: MonitorState, stop: bool)
  datatype RunResult = RunResult(state: MonitorState, stopped: bool)

  /**
   * What the loop does with a failed re-login: `AsWritten` is the code, which
   * leaves the loop; `Intended` retries at once until the budget is spent.
   */
  datatype Driver = AsWritten | Intended

  /** `config.get('cookies', '')`, the header every status request carries. */
  function CookieHeaderOf(config: Config): (header: string)
    ensures "cookies" in config ==> header == config["cookies"]
    ensures "cookies" !in config ==> header == ""
  {
    if "cookies" in config then config["cookies"] else ""
  }

  /** Both credentials are stored and non-empty (Python truthiness of `config.get(...)`). */
  predicate HasCredentials(config: Config)
    ensures HasCredentials(config) ==> CredentialsPresent(config)
  {
    "username" in config && config["username"] != "" && "password" in config && config["password"] != ""
  }

  /** `handle_auth_failure`. */
  function Recover(s: MonitorState, attempt: LoginAttempt, decode: string -> Option<Claims>): (r: Recovery)
    ensures s.trace <= r.state.trace
    ensures r.state.last == s.last
    ensures r.state.config != s.config ==> r.verdict == Recovered
    ensures r.verdict == GaveUp <==> !HasCredentials(s.config) || s.retries >= MaxLoginRetries
    ensures r.verdict == GaveUp ==>
      r.state == s.(trace := s.trace + [Notify(
        if !HasCredentials(s.config) then SessionExpired else RetriesExhausted(MaxLoginRetries))])
    ensures r.verdict == Recovered ==>
      && Pipeline(s.config, attempt, decode).LoggedIn?
      && r.state.retries == 0
      && r.state.config == s.config["cookies" := Pipeline(s.config, attempt, decode).header]
      && r.state.trace == s.trace + [LoginRun, Save(r.state.config)]
      && CookieHeaderOf(r.state.config) == Pipeline(s.config, attempt, decode).header
    ensures HasCredentials(s.config) && s.retries < MaxLoginRetries ==>
      (r.verdict == Recovered <==> Pipeline(s.config, attempt, decode).LoggedIn?)
    ensures r.verdict == AttemptFailed ==>
      r.state == s.(retries := s.retries + 1, trace := s.trace + [LoginRun])
      && s.retries < MaxLoginRetries
  {
    if !HasCredentials(s.config) then
      Recovery(s.(trace := s.trace + [Notify(SessionExpired)]), GaveUp)
    else if s.retries >= MaxLoginRetries then
      Recovery(s.(trace := s.trace + [Notify(RetriesExhausted(MaxLoginRetries))]), GaveUp)
    else
      var attempting := s.(retries := s.retries + 1, trace := s.trace + [LoginRun]);
      match Pipeline(s.config, attempt, decode)
      case LoggedIn(header) =>
        var config := s.config["cookies" := header];
        Recovery(attempting.(config := config, retries := 0, trace := attempting.trace + [Save(config)]), Recovered)
      case Failed(_) => Recovery(attempting, AttemptFailed)
  }

  /** The trace entry of an optional notice. */
  function NoticeEvents(notice: Option<Notice>): seq<Event>
  {
    if notice.Some? then [Notify(notice.value)] else []
  }

  /** One pass of the `while True` loop of `monitor_offers`. */
  function Step(s: MonitorState, c: Cycle, decode: string -> Option<Claims>, driver: Driver): (r: StepResult)
    ensures s.trace + [Fetch(CookieHeaderOf(s.config))] <= r.state.trace
    ensures r.stop ==> Classify(c.reply) == AuthFailed
    ensures Classify(c.reply) == NoCount ==>
      r == StepResult(s.(trace := s.trace + [Fetch(CookieHeaderOf(s.config)), Sleep]), false)
    ensures Classify(c.reply).Offers? ==>
      && !r.stop && r.state.config == s.config && r.state.retries == s.retries
      && r.state.last == Some(Classify(c.reply).count)
  {
    var fetched := s.(trace := s.trace + [Fetch(CookieHeaderOf(s.config))]);
    match Classify(c.reply)
    case AuthFailed =>
      var rec := Recover(fetched, c.attempt, decode);
      var stop := match driver
        case AsWritten => rec.verdict != Recovered
        case Intended => rec.verdict == GaveUp;
      StepResult(rec.state, stop)
    case NoCount =>
      StepResult(fetched.(trace := fetched.trace + [Sleep]), false)
    case Offers(current) =>
      var d := Detect(fetched.last, current);
      StepResult(fetched.(last := Some(d.last), trace := fetched.trace + NoticeEvents(d.notice) + [Sleep]), false)
  }

  /**
   * The loop over a finite script of cycles: it stops when a step says so
   * (`stopped`) or when the script runs out.
   */
  function Run(s: MonitorState, cycles: seq<Cycle>, decode: string -> Option<Claims>, driver: Driver): (r: RunResult)
    ensures s.trace <= r.state.trace
    decreases |cycles|
  {
    if cycles == [] then RunResult(s, false)
    else
      var st := Step(s, cycles[0], decode, driver);
      if st.stop then RunResult(st.state, true)
      else Run(st.state, cycles[1..], decode, driver)
  }

  // ---------------------------------------------------------------------------
  // Counting pipeline runs
  // ---------------------------------------------------------------------------

  /** How many times the trace shows the pipeline starting. */
  function LoginRuns(trace: seq<Event>): nat
  {
    multiset(trace)[LoginRun]
  }

  /** The attempts of the script all fail. */
  predicate AllAttemptsFail(config: Config, cycles: seq<Cycle>, decode: string -> Option<Claims>)
  {
    forall k :: 0 <= k < |cycles| ==> !Pipeline(config, cycles[k].attempt, decode).LoggedIn?
  }

  // ---------------------------------------------------------------------------
  // The retry counter
  // ---------------------------------------------------------------------------

  /** The re-login counter stays within `[0, max_login_retries]`, whatever the driver. */
  lemma {:induction false} RunKeepsRetriesBounded(
    s: MonitorState, cycles: seq<Cycle>, decode: string -> Option<Claims>, driver: Driver)
    requires s.retries <= MaxLoginRetries
    ensures Run(s, cycles, decode, driver).state.retries <= MaxLoginRetries
    decreases |cycles|
  {
    if cycles != [] {
      var st := Step(s, cycles[0], decode, driver);
      if !st.stop {
        RunKeepsRetriesBounded(st.state, cycles[1..], decode, driver);
      }
    }
  }

  /** The notice a classified reading raises against the stored count. */
  function ReadingNotice(last: Option<int>, fetched: FetchResult): Option<Notice>
  {
    if fetched.Offers? then Detect(last, fetched.count).notice else None
  }

  /** A step whose reply is not a 401: fetch, maybe notify, wait, and go on. */
  lemma StepWithoutAuthFailure(s: MonitorState, c: Cycle, decode: string -> Option<Claims>, driver: Driver)
    requires Classify(c.reply) != AuthFailed
    ensures var st := Step(s, c, decode, driver);
      && !st.stop && st.state.config == s.config && st.state.retries == s.retries
      && st.state.trace == s.trace + [Fetch(CookieHeaderOf(s.config))]
                         + NoticeEvents(ReadingNotice(s.last, Classify(c.reply))) + [Sleep]
  {
  }

  /** A step whose reply is a 401 is the recovery controller's, after the fetch. */
  lemma StepOnAuthFailure(s: MonitorState, c: Cycle, decode: string -> Option<Claims>, driver: Driver)
    requires Classify(c.reply) == AuthFailed
    ensures var st := Step(s, c, decode, driver);
      var rec := Recover(s.(trace := s.trace + [Fetch(CookieHeaderOf(s.config))]), c.attempt, decode);
      && st.state == rec.state
      && st.stop == (if driver == AsWritten then rec.verdict != Recovered else rec.verdict == GaveUp)
  {
  }

  /** The events of a reading's notice are notifications of a change in the count. */
  lemma NoticeEventsAreChanges(last: Option<int>, fetched: FetchResult)
    ensures forall e :: e in NoticeEvents(ReadingNotice(last, fetched)) ==>
      e.Notify? && (e.notice.NewOffer? || e.notice.CountChanged?)
  {
  }

  /** How many times the trace shows the "retries exhausted" notice. */
  function Exhaustions(trace: seq<Event>): nat
  {
    multiset(trace)[Notify(RetriesExhausted(MaxLoginRetries))]
  }

  /** A step without a 401 neither starts the pipeline nor reports exhaustion. */
  lemma StepWithoutAuthFailureCounts(s: MonitorState, c: Cycle, decode: string -> Option<Claims>, driver: Driver)
    requires Classify(c.reply) != AuthFailed
    ensures var st := Step(s, c, decode, driver);
      LoginRuns(st.state.trace) == LoginRuns(s.trace) && Exhaustions(st.state.trace) == Exhaustions(s.trace)
  {
    StepWithoutAuthFailure(s, c, decode, driver);
    NoticeEventsAreChanges(s.last, Classify(c.reply));
    var notices := NoticeEvents(ReadingNotice(s.last, Classify(c.reply)));
    assert LoginRun !in notices && Notify(RetriesExhausted(MaxLoginRetries)) !in notices;
  }

  /**
   * One step of the code as written, taken with the counter at zero: the
   * counter is non-zero afterwards only when the loop stops, the pipeline
   * starts at most once, and the "retries exhausted" notice is not sent.
   */
  lemma AsWrittenStepFromZero(s: MonitorState, c: Cycle, decode: string -> Option<Claims>)
    requires s.retries == 0
    ensures var st := Step(s, c, decode, AsWritten);
      && (st.state.retries == 0 || (st.stop && st.state.retries == 1))
      && Exhaustions(st.state.trace) == Exhaustions(s.trace)
      && LoginRuns(st.state.trace) <= LoginRuns(s.trace) + 1
      && (!st.stop && !Pipeline(s.config, c.attempt, decode).LoggedIn? ==>
            LoginRuns(st.state.trace) == LoginRuns(s.trace) && st.state.config == s.config)
  {
    if Classify(c.reply) == AuthFailed {
      StepOnAuthFailure(s, c, decode, AsWritten);
    } else {
      StepWithoutAuthFailure(s, c, decode, AsWritten);
      StepWithoutAuthFailureCounts(s, c, decode, AsWritten);
    }
  }

  /**
   * The code as written: a loop started with the counter at zero never holds a
   * non-zero counter while it goes on, starts the pipeline at most once when
   * no attempt succeeds, and never sends the "retries exhausted" notice.
   */
  lemma {:induction false} AsWrittenStopsAfterOneFailedLogin(
    s: MonitorState, cycles: seq<Cycle>, decode: string -> Option<Claims>)
    requires s.retries == 0
    ensures var r := Run(s, cycles, decode, AsWritten);
      && (r.state.retries == 0 || (r.stopped && r.state.retries == 1))
      && Exhaustions(r.state.trace) == Exhaustions(s.trace)
      && (AllAttemptsFail(s.config, cycles, decode) ==> LoginRuns(r.state.trace) <= LoginRuns(s.trace) + 1)
    decreases |cycles|
  {
    if cycles != [] {
      var st := Step(s, cycles[0], decode, AsWritten);
      AsWrittenStepFromZero(s, cycles[0], decode);
      if !st.stop {
        var rest := cycles[1..];
        AsWrittenStopsAfterOneFailedLogin(st.state, rest, decode);
        if AllAttemptsFail(s.config, cycles, decode) {
          assert !Pipeline(s.config, cycles[0].attempt, decode).LoggedIn?;
          assert AllAttemptsFail(st.state.config, rest, decode) by {
            forall k | 0 <= k < |rest|
              ensures !Pipeline(st.state.config, rest[k].attempt, decode).LoggedIn?
            {
              assert rest[k] == cycles[k + 1];
            }
          }
        }
      }
    }
  }

  /**
   * One step of the intended driver while no attempt can succeed: every
   * pipeline start is matched by one more unit on the counter, and the
   * settings stay as they were.
   */
  lemma IntendedStepCountsAttempts(s: MonitorState, c: Cycle, decode: string -> Option<Claims>)
    requires s.retries <= MaxLoginRetries
    requires !Pipeline(s.config, c.attempt, decode).LoggedIn?
    ensures var st := Step(s, c, decode, Intended);
      && LoginRuns(st.state.trace) + s.retries == LoginRuns(s.trace) + st.state.retries
      && st.state.retries <= MaxLoginRetries
      && st.state.config == s.config
  {
    var st := Step(s, c, decode, Intended);
    var h := CookieHeaderOf(s.config);
    if Classify(c.reply) == AuthFailed {
      StepOnAuthFailure(s, c, decode, Intended);
      var rec := Recover(s.(trace := s.trace + [Fetch(h)]), c.attempt, decode);
      if rec.verdict == GaveUp {
        assert LoginRuns(st.state.trace) == LoginRuns(s.trace);
      } else {
        assert st.state.trace == s.trace + [Fetch(h), LoginRun];
      }
    } else {
      StepWithoutAuthFailure(s, c, decode, Intended);
      StepWithoutAuthFailureCounts(s, c, decode, Intended);
    }
  }

  /**
   * The intended driver keeps the budget: while no attempt succeeds, the
   * pipeline starts at most `max_login_retries` times in all, counting the
   * attempts already made.
   */
  lemma {:induction false} IntendedLoginBudget(s: MonitorState, cycles: seq<Cycle>, decode: string -> Option<Claims>)
    requires s.retries <= MaxLoginRetries
    requires AllAttemptsFail(s.config, cycles, decode)
    ensures var r := Run(s, cycles, decode, Intended);
      LoginRuns(r.state.trace) + s.retries == LoginRuns(s.trace) + r.state.retries
      && LoginRuns(r.state.trace) <= LoginRuns(s.trace) + MaxLoginRetries - s.retries
    decreases |cycles|
  {
    if cycles != [] {
      var st := Step(s, cycles[0], decode, Intended);
      IntendedStepCountsAttempts(s, cycles[0], decode);
      if !st.stop {
        var rest := cycles[1..];
        assert AllAttemptsFail(st.state.config, rest, decode) by {
          forall k | 0 <= k < |rest|
            ensures !Pipeline(st.state.config, rest[k].attempt, decode).LoggedIn?
          {
            assert rest[k] == cycles[k + 1];
          }
        }
        IntendedLoginBudget(st.state, rest, decode);
      }
    }
  }

  // ---------------------------------------------------------------------------
  // Pacing: the loop waits before every fetch but the one after a re-login
  // ---------------------------------------------------------------------------

  /** Every fetch but the first follows a wait or a successful re-login's save. */
  predicate Paced(trace: seq<Event>)
  {
    forall i :: 0 < i < |trace| && trace[i].Fetch? ==> trace[i - 1].Sleep? || trace[i - 1].Save?
  }

  /** The trace may be followed by a fetch without breaking the pacing. */
  predicate ReadyToFetch(trace: seq<Event>)
  {
    trace == [] || trace[|trace| - 1].Sleep? || trace[|trace| - 1].Save?
  }

  /** Appending a fetch-led block that holds no other fetch keeps the pacing. */
  lemma PacedAppend(trace: seq<Event>, block: seq<Event>)
    requires Paced(trace) && ReadyToFetch(trace)
    requires block != [] && block[0].Fetch?
    requires forall i :: 0 < i < |block| ==> !block[i].Fetch?
    ensures Paced(trace + block)
  {
    var t := trace + block;
    forall i | 0 < i < |t| && t[i].Fetch?
      ensures t[i - 1].Sleep? || t[i - 1].Save?
    {
      if i >= |trace| {
        assert i == |trace|;
      }
    }
  }

  /** One step of the code as written keeps the pacing and, unless it stops, ends ready for the next fetch. */
  lemma AsWrittenStepPaced(s: MonitorState, c: Cycle, decode: string -> Option<Claims>)
    requires Paced(s.trace) && ReadyToFetch(s.trace)
    ensures var st := Step(s, c, decode, AsWritten);
      Paced(st.state.trace) && (!st.stop ==> ReadyToFetch(st.state.trace))
  {
    var st := Step(s, c, decode, AsWritten);
    var h := CookieHeaderOf(s.config);
    var block: seq<Event>;
    if Classify(c.reply) == AuthFailed {
      StepOnAuthFailure(s, c, decode, AsWritten);
      var rec := Recover(s.(trace := s.trace + [Fetch(h)]), c.attempt, decode);
      if rec.verdict == GaveUp {
        block := [Fetch(h), st.state.trace[|s.trace| + 1]];
        assert !block[1].Fetch?;
      } else if rec.verdict == AttemptFailed {
        block := [Fetch(h), LoginRun];
      } else {
        block := [Fetch(h), LoginRun, Save(st.state.config)];
      }
    } else {
      StepWithoutAuthFailure(s, c, decode, AsWritten);
      NoticeEventsAreChanges(s.last, Classify(c.reply));
      block := [Fetch(h)] + NoticeEvents(ReadingNotice(s.last, Classify(c.reply))) + [Sleep];
    }
    assert st.state.trace == s.trace + block;
    PacedAppend(s.trace, block);
  }

  /**
   * Over a whole run of the code as written, a fetch directly follows either
   * the 60-second wait or the save of a successful re-login: a recovery
   * re-fetches at once, every other cycle waits first.
   */
  lemma {:induction false} AsWrittenRunPaced(s: MonitorState, cycles: seq<Cycle>, decode: string -> Option<Claims>)
    requires Paced(s.trace) && ReadyToFetch(s.trace)
    ensures Paced(Run(s, cycles, decode, AsWritten).state.trace)
    decreases |cycles|
  {
    if cycles != [] {
      var st := Step(s, cycles[0], decode, AsWritten);
      AsWrittenStepPaced(s, cycles[0], decode);
      if !st.stop {
        AsWrittenRunPaced(st.state, cycles[1..], decode);
      }
    }
  }
}
