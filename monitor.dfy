/** One run of the monitor (the `__main__` block of src/main.py:89-110):
    the decision rules it applies to each account and the run itself, with
    the configuration, the pool's answers, the clock and the healthcheck
    outcome given as inputs. */
module Monitor {
  import opened Wrappers
  import opened Pool
  import opened Alarms
  import opened Daily
  import opened Text

  /* ---------------------------------------------------------------------
     The daily window (src/main.py:8-9, 103)
     --------------------------------------------------------------------- */

  /** A wall-clock time of day as Python's `datetime.time` holds it. */
  datatype TimeOfDay = TimeOfDay(hour: nat, minute: nat, second: nat, microsecond: nat) {
    predicate Valid() {
      hour < 24 && minute < 60 && second < 60 && microsecond < 1000000
    }
  }

  const DailyWindowStart := TimeOfDay(20, 0, 0, 0)
  const DailyWindowEnd := TimeOfDay(21, 10, 0, 0)

  /** `a <= b` as Python orders `time` values: hour, then minute, then
      second, then microsecond. */
  predicate NotAfter(a: TimeOfDay, b: TimeOfDay) {
    a.hour < b.hour || (a.hour == b.hour &&
    (a.minute < b.minute || (a.minute == b.minute &&
    (a.second < b.second || (a.second == b.second &&
     a.microsecond <= b.microsecond)))))
  }

  /** Microseconds since midnight. */
  function Micros(t: TimeOfDay): nat {
    ((t.hour * 60 + t.minute) * 60 + t.second) * 1000000 + t.microsecond
  }

  /** The two readings of the clock taken by the window test: the first is
      compared with the start of the window, the second with its end. */
  datatype ClockReadings = ClockReadings(first: TimeOfDay, second: TimeOfDay)

  /** The daily summary is due when the first reading is not before 20:00:00
      and the second is not after 21:10:00. */
  predicate InDailyWindow(clock: ClockReadings) {
    NotAfter(DailyWindowStart, clock.first) && NotAfter(clock.second, DailyWindowEnd)
  }

  /** On valid times, Python's field-by-field order is the order of the
      instants they name. */
  lemma NotAfterIsMicrosOrder(a: TimeOfDay, b: TimeOfDay)
    requires a.Valid() && b.Valid()
    ensures NotAfter(a, b) <==> Micros(a) <= Micros(b)
  {
  }

  /** The summary is due exactly when the first reading is at or after
      20:00:00.000000 and the second at or before 21:10:00.000000, both ends
      included. */
  lemma DailyWindowInclusive(c: ClockReadings)
    requires c.first.Valid() && c.second.Valid()
    ensures InDailyWindow(c) <==>
      72000000000 <= Micros(c.first) && Micros(c.second) <= 76200000000
  {
    NotAfterIsMicrosOrder(DailyWindowStart, c.first);
    NotAfterIsMicrosOrder(c.second, DailyWindowEnd);
  }

  /* ---------------------------------------------------------------------
     The alarm guard (src/main.py:100-102)
     --------------------------------------------------------------------- */

  /** An alarm message is sent when it is longer than one character. */
  predicate ShouldSendAlarm(alarms: string) {
    |alarms| > 1
  }

  /** The guard fires exactly when the report is non-empty, that is when the
      counts differ or some worker has zero hashrate. */
  lemma AlarmGuardFiresIffReport(stats: Stats)
    ensures ShouldSendAlarm(AlarmReport(stats)) <==> AlarmReport(stats) != ""
    ensures ShouldSendAlarm(AlarmReport(stats)) <==>
      stats.workerLength != stats.workerLengthOnline ||
      exists i :: 0 <= i < |stats.workers| && stats.workers[i].hashrate == 0
  {
    AlarmReportLength(stats);
    AlarmReportEmptyIff(stats);
  }

  /* ---------------------------------------------------------------------
     Exit codes (src/main.py:91-92, 107-110)
     --------------------------------------------------------------------- */

  /** Python's status for a run ended by an uncaught exception. */
  const ExitUncaught := 1

  /** The status the run chooses: 1 without a configuration, otherwise 0 when
      the healthcheck ping succeeded and 2 when it failed. */
  function ExitCode(configLoaded: bool, healthcheckOk: bool): (code: int)
    ensures code == 1 <==> !configLoaded
    ensures code == 0 <==> configLoaded && healthcheckOk
    ensures code == 2 <==> configLoaded && !healthcheckOk
  {
    if !configLoaded then 1 else if healthcheckOk then 0 else 2
  }

  /* ---------------------------------------------------------------------
     The run (src/main.py:89-110)
     --------------------------------------------------------------------- */

  /** What `get_user_stats` gave for one request: the parsed statistics, a
      transport error (returned as an exception object), a non-200 status
      (returned as a JSON-encoded string), or an exception raised inside the
      function itself when a 200 answer's body is not JSON (the decoding is
      outside its `try`). */
  datatype Fetch = Fetched(stats: Stats) | TransportFailure | HttpFailure | Raised

  /** One currency of the configuration and its accounts, in file order. The
      currency only selects the URL of each request, which is not modelled;
      it is kept so that the datatype mirrors the configuration file. */
  datatype CurrencyAccounts = CurrencyAccounts(currency: string, users: seq<string>)

  /** The part of the configuration file the loop reads. */
  datatype Config = Config(currencies: seq<CurrencyAccounts>)

  /** The messages passed to `send_tg_message` so far (whatever answer the
      post got), and whether the run has stopped on an exception. */
  datatype Progress = Progress(sent: seq<string>, crashed: bool)

  /** The messages passed to `send_tg_message`, whether the healthcheck was
      pinged, and the exit status. */
  datatype RunResult = RunResult(sent: seq<string>, healthcheckPinged: bool, exitCode: int)

  /** The accounts in the order the nested loops visit them. */
  function Accounts(cs: seq<CurrencyAccounts>): seq<string> {
    if cs == [] then [] else Accounts(cs[..|cs| - 1]) + cs[|cs| - 1].users
  }

  /** One pass of the loop body for `user`. Indexing a response that is not a
      statistics record raises, so a failed fetch ends the run before anything
      is sent; the daily summary is built from `userStatus`, the record of the
      fixed account fetched before the loop, so if that fetch failed the run
      ends when the window is open, after the alarm was sent. */
  function AccountStep(user: string, response: Fetch, userStatus: Fetch, clock: ClockReadings): Progress {
    match response
    case Fetched(stats) =>
      var alarms := AlarmReport(stats);
      var sent := if ShouldSendAlarm(alarms) then [alarms] else [];
      if !InDailyWindow(clock) then Progress(sent, false)
      else if userStatus.Fetched? then Progress(sent + [DailyMessage(user, userStatus.stats)], false)
      else Progress(sent, true)
    case _ => Progress([], true)
  }

  /** The loop body raises for an account when its fetch failed, or when the
      clock is in the window and the fixed account's record is missing. */
  predicate Raises(response: Fetch, userStatus: Fetch, clock: ClockReadings) {
    !response.Fetched? || (InDailyWindow(clock) && !userStatus.Fetched?)
  }

  lemma AccountStepRaises(user: string, response: Fetch, userStatus: Fetch, clock: ClockReadings)
    ensures AccountStep(user, response, userStatus, clock).crashed <==> Raises(response, userStatus, clock)
  {
  }

  /** A daily message is recognised by its `Stats for:` opening. */
  predicate IsDailyMessage(m: string) {
    StartsWith(m, "Stats for:")
  }

  lemma DailyMessageIsDaily(user: string, stats: Stats)
    ensures IsDailyMessage(DailyMessage(user, stats))
  {
  }

  /** No alarm report can be taken for a daily message. */
  lemma AlarmReportIsNotDaily(stats: Stats)
    ensures !IsDailyMessage(AlarmReport(stats))
  {
    AlarmReportStart(stats);
    StartsWithFirst(AlarmReport(stats), "Stats for:");
  }

  /** For an account whose fetch succeeded: its alarm report goes out first
      exactly when the guard fires, a daily message goes out exactly when the
      clock is in the window and the fixed account's record was fetched, the
      run stops exactly when the clock is in the window and that record is
      missing, and at most two messages go out. */
  lemma FetchedAccountMessages(user: string, stats: Stats, userStatus: Fetch, clock: ClockReadings)
    ensures var step := AccountStep(user, Fetched(stats), userStatus, clock);
      (ShouldSendAlarm(AlarmReport(stats)) <==> |step.sent| > 0 && step.sent[0] == AlarmReport(stats)) &&
      ((exists i :: 0 <= i < |step.sent| && IsDailyMessage(step.sent[i])) <==>
         InDailyWindow(clock) && userStatus.Fetched?) &&
      (step.crashed <==> InDailyWindow(clock) && !userStatus.Fetched?) &&
      |step.sent| <= 2
  {
    AlarmReportIsNotDaily(stats);
    var step := AccountStep(user, Fetched(stats), userStatus, clock);
    if InDailyWindow(clock) && userStatus.Fetched? {
      var daily := DailyMessage(user, userStatus.stats);
      DailyMessageIsDaily(user, userStatus.stats);
      assert step.sent[|step.sent| - 1] == daily;
      if !ShouldSendAlarm(AlarmReport(stats)) {
        assert step.sent == [daily];
        assert daily != AlarmReport(stats);
      }
    }
  }

  /** What the loop body does for each account, the k-th account getting the
      k-th response and the k-th clock readings. */
  function Steps(accts: seq<string>, userStatus: Fetch, responses: nat -> Fetch,
                 clocks: nat -> ClockReadings): (steps: seq<Progress>)
    ensures |steps| == |accts|
  {
    if accts == [] then []
    else
      var k := |accts| - 1;
      Steps(accts[..k], userStatus, responses, clocks) + [AccountStep(accts[k], responses(k), userStatus, clocks(k))]
  }

  lemma {:induction false} StepAt(accts: seq<string>, k: nat, userStatus: Fetch,
                                  responses: nat -> Fetch, clocks: nat -> ClockReadings)
    requires k < |accts|
    ensures Steps(accts, userStatus, responses, clocks)[k] ==
      AccountStep(accts[k], responses(k), userStatus, clocks(k))
  {
    var n := |accts| - 1;
    if k < n {
      StepAt(accts[..n], k, userStatus, responses, clocks);
    }
  }

  lemma StepOf(accts: seq<string>, k: nat, user: string, userStatus: Fetch,
                responses: nat -> Fetch, clocks: nat -> ClockReadings)
    requires k < |accts| && accts[k] == user
    ensures Steps(accts, userStatus, responses, clocks)[k] ==
      AccountStep(user, responses(k), userStatus, clocks(k))
  {
    StepAt(accts, k, userStatus, responses, clocks);
  }

  /** The loop over the first `n` accounts: their messages in order, where
      nothing after an exception is processed. */
  function Fold(steps: seq<Progress>, n: nat): Progress
    requires n <= |steps|
  {
    if n == 0 then Progress([], false)
    else
      var before := Fold(steps, n - 1);
      if before.crashed then before
      else Progress(before.sent + steps[n - 1].sent, steps[n - 1].crashed)
  }

  /** The whole run: stop with status 1 without a configuration, and with
      Python's status 1 when fetching the fixed account's record raised;
      otherwise process every account, then ping the healthcheck and exit with
      the status its outcome selects, unless an exception ended the run first. */
  function RunSpec(config: Option<Config>, userStatus: Fetch, responses: nat -> Fetch,
                   clocks: nat -> ClockReadings, healthcheckOk: bool): RunResult
  {
    match config
    case None => RunResult([], false, ExitCode(false, healthcheckOk))
    case Some(cfg) =>
      if userStatus.Raised? then RunResult([], false, ExitUncaught)
      else
      var accts := Accounts(cfg.currencies);
      var p := Fold(Steps(accts, userStatus, responses, clocks), |accts|);
      if p.crashed then RunResult(p.sent, false, ExitUncaught)
      else RunResult(p.sent, true, ExitCode(true, healthcheckOk))
  }

  /** The accounts of two parts of the configuration are those of the first
      part followed by those of the second. */
  lemma {:induction false} AccountsAppend(a: seq<CurrencyAccounts>, b: seq<CurrencyAccounts>)
    ensures Accounts(a + b) == Accounts(a) + Accounts(b)
  {
    if b == [] {
      assert a + b == a;
    } else {
      var b' := b[..|b| - 1];
      var last := b[|b| - 1].users;
      assert Accounts(a + b) == Accounts(a + b') + last by {
        assert (a + b)[..|a + b| - 1] == a + b';
      }
      AccountsAppend(a, b');
      AppendAssoc(Accounts(a), Accounts(b'), last);
    }
  }

  lemma AccountsSnoc(cs: seq<CurrencyAccounts>, c: nat)
    requires c < |cs|
    ensures Accounts(cs[..c + 1]) == Accounts(cs[..c]) + cs[c].users
  {
    assert cs[..c + 1][..c] == cs[..c];
  }

  /** The u-th account of the c-th currency is visited after all the accounts
      of the currencies before it. */
  lemma AccountAt(cs: seq<CurrencyAccounts>, c: nat, u: nat)
    requires c < |cs| && u < |cs[c].users|
    ensures |Accounts(cs[..c])| + u < |Accounts(cs)|
    ensures Accounts(cs)[|Accounts(cs[..c])| + u] == cs[c].users[u]
  {
    AccountsSnoc(cs, c);
    assert cs == cs[..c + 1] + cs[c + 1..];
    AccountsAppend(cs[..c + 1], cs[c + 1..]);
  }

  /** After a run that has not stopped, one more account appends its
      messages and takes its stop flag. */
  lemma FoldNext(steps: seq<Progress>, k: nat, sent: seq<string>, step: Progress)
    requires k < |steps| && Fold(steps, k) == Progress(sent, false) && steps[k] == step
    ensures Fold(steps, k + 1) == Progress(sent + step.sent, step.crashed)
  {
  }

  /** Once an exception has ended the run, later accounts change nothing. */
  lemma {:induction false} CrashIsFinal(steps: seq<Progress>, m: nat, n: nat)
    requires m <= n <= |steps|
    requires Fold(steps, m).crashed
    ensures Fold(steps, n) == Fold(steps, m)
  {
    if m < n {
      CrashIsFinal(steps, m, n - 1);
    }
  }

  /** An account whose step raises before sending anything ends the run with
      the messages of the accounts before it. */
  lemma FoldStopsAt(steps: seq<Progress>, k: nat)
    requires k < |steps| && steps[k] == Progress([], true) && !Fold(steps, k).crashed
    ensures Fold(steps, |steps|) == Progress(Fold(steps, k).sent, true)
  {
    assert Fold(steps, k).sent + [] == Fold(steps, k).sent;
    CrashIsFinal(steps, k + 1, |steps|);
  }

  /** A failed fetch ends the run at that account: the messages are those of
      the accounts before it, and no later account is processed. */
  lemma FailedFetchEndsRun(accts: seq<string>, k: nat, userStatus: Fetch,
                           responses: nat -> Fetch, clocks: nat -> ClockReadings)
    requires k < |accts| && !responses(k).Fetched?
    requires !Fold(Steps(accts, userStatus, responses, clocks), k).crashed
    ensures var steps := Steps(accts, userStatus, responses, clocks);
      Fold(steps, |accts|) == Progress(Fold(steps, k).sent, true)
  {
    StepAt(accts, k, userStatus, responses, clocks);
    FoldStopsAt(Steps(accts, userStatus, responses, clocks), k);
  }

  /** The run stops exactly when some account's step raises. */
  lemma {:induction false} CrashedIff(steps: seq<Progress>, n: nat)
    requires n <= |steps|
    ensures Fold(steps, n).crashed <==> exists k :: 0 <= k < n && steps[k].crashed
  {
    if n > 0 {
      CrashedIff(steps, n - 1);
    }
  }

  /** The loop over the accounts stops exactly when some account's fetch
      failed, or some account's clock readings are in the window while the
      fixed account's record is missing. */
  lemma RunStopsIff(accts: seq<string>, userStatus: Fetch,
                    responses: nat -> Fetch, clocks: nat -> ClockReadings)
    ensures Fold(Steps(accts, userStatus, responses, clocks), |accts|).crashed <==>
      exists k :: 0 <= k < |accts| && Raises(responses(k), userStatus, clocks(k))
  {
    var steps := Steps(accts, userStatus, responses, clocks);
    forall k | 0 <= k < |accts|
      ensures steps[k].crashed <==> Raises(responses(k), userStatus, clocks(k))
    {
      StepAt(accts, k, userStatus, responses, clocks);
      AccountStepRaises(accts[k], responses(k), userStatus, clocks(k));
    }
    CrashedIff(steps, |accts|);
  }

  /** When every account's fetch succeeds, the run never stops early, provided
      the fixed account's record was fetched or no clock reading is in the
      window. */
  lemma FetchesSucceedNoCrash(accts: seq<string>, userStatus: Fetch,
                              responses: nat -> Fetch, clocks: nat -> ClockReadings)
    requires forall k :: 0 <= k < |accts| ==> responses(k).Fetched?
    requires userStatus.Fetched? || forall k :: 0 <= k < |accts| ==> !InDailyWindow(clocks(k))
    ensures !Fold(Steps(accts, userStatus, responses, clocks), |accts|).crashed
  {
    RunStopsIff(accts, userStatus, responses, clocks);
  }

  /** Without a configuration, or when fetching the fixed account's record
      raised, nothing is sent and the status is 1. Otherwise the status is 1
      exactly when some account's step raises; when none does, the healthcheck
      is pinged and its outcome picks status 0 or 2. */
  lemma RunExitStatus(config: Option<Config>, userStatus: Fetch, responses: nat -> Fetch,
                      clocks: nat -> ClockReadings, healthcheckOk: bool)
    ensures config.None? || userStatus.Raised? ==>
      RunSpec(config, userStatus, responses, clocks, healthcheckOk) == RunResult([], false, 1)
    ensures config.Some? && !userStatus.Raised? ==>
      var accts := Accounts(config.value.currencies);
      var r := RunSpec(config, userStatus, responses, clocks, healthcheckOk);
      (r.exitCode == 1 <==> exists k :: 0 <= k < |accts| && Raises(responses(k), userStatus, clocks(k))) &&
      (r.healthcheckPinged <==> r.exitCode != 1) &&
      (r.healthcheckPinged ==> r.exitCode == if healthcheckOk then 0 else 2)
  {
    if config.Some? && !userStatus.Raised? {
      RunStopsIff(Accounts(config.value.currencies), userStatus, responses, clocks);
    }
  }

  /** One pass of the inner loop of `Run`: the u-th account of the c-th
      currency is the k-th account of the run, and its step extends the
      messages; a step that raises fixes the outcome of the whole loop. */
  lemma RunStep(cs: seq<CurrencyAccounts>, c: nat, u: nat, k: nat, sent: seq<string>, step: Progress,
                userStatus: Fetch, responses: nat -> Fetch, clocks: nat -> ClockReadings)
    requires c < |cs| && u < |cs[c].users| && k == |Accounts(cs[..c])| + u
    requires step == AccountStep(cs[c].users[u], responses(k), userStatus, clocks(k))
    requires k <= |Accounts(cs)| &&
      Fold(Steps(Accounts(cs), userStatus, responses, clocks), k) == Progress(sent, false)
    ensures k + 1 <= |Accounts(cs)|
    ensures Fold(Steps(Accounts(cs), userStatus, responses, clocks), k + 1) ==
      Progress(sent + step.sent, step.crashed)
    ensures step.crashed ==>
      var accts := Accounts(cs);
      Fold(Steps(accts, userStatus, responses, clocks), |accts|) == Progress(sent + step.sent, true)
  {
    var accts := Accounts(cs);
    var steps := Steps(accts, userStatus, responses, clocks);
    AccountAt(cs, c, u);
    StepOf(accts, k, cs[c].users[u], userStatus, responses, clocks);
    FoldNext(steps, k, sent, step);
    if step.crashed {
      CrashIsFinal(steps, k + 1, |accts|);
    }
  }

  /** The loop body for one account: evaluate the alarms and send them when
      the guard fires, then send the daily summary when the clock is in the
      window. `crashed` reports the exception that ends the run. */
  method ProcessAccount(user: string, response: Fetch, userStatus: Fetch, clock: ClockReadings)
    returns (step: Progress)
    ensures step == AccountStep(user, response, userStatus, clock)
    ensures !response.Fetched? ==> step == Progress([], true)
    ensures step.crashed <==> Raises(response, userStatus, clock)
  {
    if !response.Fetched? {
      return Progress([], true);
    }
    var sent: seq<string> := [];
    var alarms := CheckAlarms(response.stats);
    if ShouldSendAlarm(alarms) {
      sent := sent + [alarms];
    }
    if InDailyWindow(clock) {
      if !userStatus.Fetched? {
        return Progress(sent, true);
      }
      sent := sent + [DailyMessage(user, userStatus.stats)];
    }
    return Progress(sent, false);
  }

  /** The run: load the configuration (given), process every account of
      every currency in file order, and finally ping the healthcheck. */
  method Run(config: Option<Config>, userStatus: Fetch, responses: nat -> Fetch,
             clocks: nat -> ClockReadings, healthcheckOk: bool) returns (r: RunResult)
    ensures r == RunSpec(config, userStatus, responses, clocks, healthcheckOk)
  {
    if config.None? {
      return RunResult([], false, ExitCode(false, healthcheckOk));
    }
    if userStatus.Raised? {
      return RunResult([], false, ExitUncaught);
    }
    var cs := config.value.currencies;
    ghost var accts := Accounts(cs);
    ghost var steps := Steps(accts, userStatus, responses, clocks);
    var sent: seq<string> := [];
    var k: nat := 0;
    for c := 0 to |cs|
      invariant k == |Accounts(cs[..c])| && k <= |accts|
      invariant Fold(steps, k) == Progress(sent, false)
    {
      var entry := cs[c];
      ghost var base := k;
      for u := 0 to |entry.users|
        invariant k == base + u && k <= |accts|
        invariant Fold(steps, k) == Progress(sent, false)
      {
        var step := ProcessAccount(entry.users[u], responses(k), userStatus, clocks(k));
        RunStep(cs, c, u, k, sent, step, userStatus, responses, clocks);
        sent := sent + step.sent;
        k := k + 1;
        if step.crashed {
          return RunResult(sent, false, ExitUncaught);
        }
      }
      AccountsSnoc(cs, c);
    }
    assert cs[..|cs|] == cs;
    r := RunResult(sent, true, ExitCode(true, healthcheckOk));
  }
}
