# F2PoolMonitor in Dafny

F2PoolMonitor is a cron-style script that watches mining accounts on the
F2Pool pool. For every account in its configuration it fetches the account's
statistics. It sends a Telegram alarm when not all workers are online or when
a worker reports zero hashrate. Between 20:00:00 and 21:10:00 it also sends a
daily summary. Finally it pings a healthcheck service and exits with a status
that reports the outcome.

This project models that core and proves what the messages contain and when
they are sent:

- `Alarms` models the alarm evaluator `check_alarms`. It is an imperative
  method, `CheckAlarms`, proved against the specification function
  `AlarmReport`. The lemmas beside it prove:
  - the report is empty exactly when all is well;
  - where the summary and each worker line sit;
  - the order of the two counts, and reading them back;
  - one CRLF per zero-hashrate worker.
- `Daily` models the daily summary template `generate_daily_stats` and the
  `Stats for:<user> - ` message built from it. Lemmas show that the two
  counts are read back from the end in their order (online, then total).
- `Decimal` renders worker counts as Python renders a non-negative `int`. It
  also holds the digit parsers that the read-back lemmas use.
- `Monitor` models the `__main__` block:
  - the inclusive time window, with Python's field-by-field `time`
    ordering and the two separate clock readings of the window test;
  - the `len(alarms) > 1` send guard;
  - the exit codes;
  - the run itself: an imperative method, `Run`, with the same nested loops
    over currencies and accounts. It is proved equal to the specification
    function `RunSpec`.
- `Pool` holds the statistics record. `Text` holds prefix and suffix facts
  about strings. `Wrappers` holds `Option`.

The network, the clock and the configuration file are inputs to the model:
- the configuration is an `Option<Config>`; `None` stands for a missing file;
- the pool's answers are `Fetch` values, indexed by the position of the
  account in the loop;
- the fixed account's answer fetched before the loop is `userStatus`;
- each account's two clock readings are a `ClockReadings` value;
- whether the healthcheck ping succeeded is a boolean.

A response that is not a statistics record is either an exception object or
the JSON string built for a non-200 status. Indexing it at src/main.py:97
raises `TypeError`. A 200 answer whose body is not JSON makes `resp.json()`
raise inside `get_user_stats` itself, because the decoding at
src/main.py:28 is outside the `try`. Either way the script ends with
Python's status 1 for an uncaught exception: no healthcheck ping, and
nothing further sent. The model has `Run` return exit status 1 without
pinging in those cases. When the fetch of the fixed account at
src/main.py:93 raises, this happens before the loop, so nothing is sent at
all.

The daily message for each account is built from `userStatus`, as
src/main.py:104 does. That is the record of the fixed account fetched at
src/main.py:93, not the record of the account named in the message. So when
that one fetch failed, the run stops at the first account whose clock
readings fall in the window. That account's alarm is sent first, if its
guard fired. If an earlier account's own fetch failed, the run has already
stopped there, with nothing sent for that account.

## Model

| member | source | states |
|---|---|---|
| Alarms.AlarmReport | src/main.py:43-50 | defines the text `check_alarms` returns: `Not all miners online! <total> of <online> online` when the two counts differ (nothing otherwise), followed directly by `Alarm! Device <name> has 0 hashrate!` and CRLF for each zero-hashrate worker in list order |
| Alarms.Summary | src/main.py:45-46 | defines the summary: `Not all miners online! <total> of <online> online` when the counts differ, and the empty text when they agree |
| Alarms.AlarmLine | src/main.py:49 | defines one worker line: `Alarm! Device <name> has 0 hashrate!` followed by CRLF |
| Daily.DailyStats | src/main.py:53-55 | defines the text `Balance:<balance>, hashrate: <hashrate>, <online> online from <total> overall.` |
| Daily.DailyMessage | src/main.py:105 | defines the daily message: `Stats for:<user> - ` followed by the daily summary |
| Monitor.InDailyWindow | src/main.py:103 | defines the window test: the first clock reading is not before 20:00:00 and the second is not after 21:10:00, compared hour, then minute, second and microsecond |
| Monitor.ShouldSendAlarm | src/main.py:101 | defines the send guard: the report is longer than one character |
| Monitor.Accounts | src/main.py:94-95 | defines the order in which the nested loops visit accounts: each currency's users in file order, currency after currency |
| Monitor.AccountStep | src/main.py:96-106 | defines one pass of the loop body: a stop with nothing sent on a failed fetch; otherwise the alarm report when the guard fires, then, when the clock is in the window, the daily message built from the fixed account's record, or a stop when that record is missing |
| Monitor.Raises | src/main.py:96-106 | defines when the loop body raises: the account's fetch failed, or the clock is in the window and the fixed account's record is missing |
| Monitor.Steps | src/main.py:94-96 | defines the steps of the run: the loop body applied to the k-th account with the k-th response and clock readings |
| Monitor.Fold | src/main.py:94-106 | defines the loop over the first n accounts: their messages in visiting order, and nothing processed after the first step that raises |
| Monitor.RunSpec | src/main.py:89-110 | defines the whole run: status 1 with nothing sent without a configuration or when the fixed account's fetch raised; otherwise the loop's messages, then status 1 without a ping if the loop raised, or the ping and status 0 or 2 as it succeeded or failed |
| Decimal.NatToString | src/main.py:46 | a count renders as at least one decimal digit, only digits, with no leading zero unless the count is zero, and one digit exactly for counts below ten |
| Decimal.NatToStringRoundTrip | src/main.py:46 | reading the digits of a rendered count gives the count back |
| Decimal.NatToStringInjective | src/main.py:46 | two different counts never render to the same text |
| Decimal.ParseLeadingNatOfRendering | src/main.py:46 | a rendered count followed by text that does not start with a digit is read back as that count and that text |
| Decimal.ParseTrailingNatOfRendering | src/main.py:55 | a rendered count preceded by text that does not end with a digit is read back as that text and that count |
| Alarms.CheckAlarms | src/main.py:43-50 | the loop that starts from the summary (or nothing) and appends a line per zero-hashrate worker returns exactly `AlarmReport(stats)` |
| Alarms.AlarmTextSnoc | src/main.py:47-49 | visiting one more worker appends its CRLF-terminated line when its hashrate is 0 and nothing otherwise |
| Alarms.ZeroPositions | src/main.py:47-48 | the positions listed are increasing, in range, and are exactly the workers whose hashrate is 0 |
| Alarms.AlarmLinesAtZeroPositions | src/main.py:47-49 | there is one alarm line per zero-hashrate worker, and the k-th line names the k-th such worker in list order |
| Alarms.AlarmLinesAppend | src/main.py:47-49 | the lines for two parts of the worker list are those of the first part followed by those of the second |
| Alarms.ConcatAppend | src/main.py:49 | lines are joined with no separator, so joining two groups of lines is joining each group and concatenating the results |
| Alarms.AlarmTextShape | src/main.py:47-49 | the joined lines are empty exactly when there are none; otherwise they start with `A` of `Alarm!`, end in the line feed of CRLF and are longer than one character |
| Alarms.AlarmReportEmptyIff | src/main.py:44-49 | the report is empty if and only if the two counts agree and no worker has hashrate 0 |
| Alarms.AlarmReportLength | src/main.py:44-49 | every non-empty report is longer than one character |
| Alarms.AlarmReportStart | src/main.py:45-49 | a non-empty report opens with `N` when the counts differ and with `A` when they agree |
| Alarms.AlarmReportAroundZeroWorker | src/main.py:47-49 | the report is the summary, then the lines of the workers before a zero-hashrate worker, then its line, then the lines of the workers after it |
| Alarms.NonZeroWorkersAddNothing | src/main.py:47-48 | workers whose hashrate is not 0 contribute no line |
| Alarms.FirstAlarmFollowsSummary | src/main.py:45-49 | when the counts differ, the first zero-hashrate worker's line directly follows the summary, with no separator |
| Alarms.ParseCountsOf | src/main.py:46 | the `<total> of <online> online` part of the summary reads back as the two counts in that order |
| Alarms.ParseOfflineSummaryOf | src/main.py:46 | whatever follows it, the summary reads back as (total, online): the total count comes first |
| Alarms.AlarmTextIsNoSummary | src/main.py:47-49 | worker lines never begin with the summary's `Not all miners online! ` prefix |
| Alarms.OfflineSummaryReadBack | src/main.py:45-46 | the report reads back as (total, online) when the counts differ, and carries no summary when they agree |
| Alarms.AlarmLineCrlf | src/main.py:49 | a worker line whose name holds no CRLF holds exactly one CRLF |
| Alarms.CrlfCountOfAlarmText | src/main.py:47-49 | the joined worker lines hold one CRLF per line when no name holds one |
| Alarms.SummaryHasNoCr | src/main.py:46 | the summary holds no carriage return |
| Alarms.CrlfCountOfReport | src/main.py:44-49 | the report holds exactly one CRLF per zero-hashrate worker when no worker name holds one |
| Daily.ParseDailyCountsOf | src/main.py:54-55 | the `<online> online from <total> overall.` ending reads back as (online, total) after any text not ending in a digit |
| Daily.DailyCountsReadBack | src/main.py:53-55 | the summary and the `Stats for:` message built from it both end with the online count followed by the total count |
| Monitor.NotAfterIsMicrosOrder | src/main.py:103 | on valid times, Python's hour-minute-second-microsecond comparison is the order of the instants since midnight |
| Monitor.DailyWindowInclusive | src/main.py:103 | with both clock readings valid, the daily summary is due exactly when the first reading is at or after 20:00:00.000000 (72000000000 microseconds) and the second at or before 21:10:00.000000 (76200000000 microseconds), both ends included |
| Monitor.AlarmGuardFiresIffReport | src/main.py:100-102 | the `len > 1` guard fires exactly when the report is non-empty, that is when the counts differ or some worker has hashrate 0 |
| Monitor.ExitCode | src/main.py:91-110 | status 1 exactly when there is no configuration; otherwise 0 exactly when the healthcheck ping succeeded and 2 exactly when it failed |
| Monitor.DailyMessageIsDaily | src/main.py:105 | every daily message opens with `Stats for:` |
| Monitor.AlarmReportIsNotDaily | src/main.py:43-50 | no alarm report opens with `Stats for:` |
| Monitor.FetchedAccountMessages | src/main.py:100-106 | for an account whose record was fetched, its alarm report is the first message exactly when the guard fires; a daily message is sent exactly when the clock is in the window and the fixed account's record was fetched; the run stops exactly when the clock is in the window and that record is missing; at most two messages are sent |
| Monitor.AccountStepRaises | src/main.py:96-106 | one pass of the loop body raises exactly when the account's fetch failed, or when the clock is in the window and the fixed account's record is missing |
| Monitor.StepAt | src/main.py:94-96 | the k-th step of the run is the loop body applied to the k-th account with the k-th response and clock readings |
| Monitor.AccountsAppend | src/main.py:94-95 | the accounts visited for two parts of the configuration are those of the first part followed by those of the second |
| Monitor.AccountsSnoc | src/main.py:94-95 | the accounts of the first c + 1 currencies are those of the first c followed by the accounts of the c-th |
| Monitor.AccountAt | src/main.py:94-95 | the u-th account of the c-th currency is visited right after all the accounts of the earlier currencies and the first u of its own |
| Monitor.FoldNext | src/main.py:94-106 | after a run of k accounts that has not stopped, the (k+1)-th account's step appends its messages and takes its stop flag |
| Monitor.CrashIsFinal | src/main.py:96-106 | once an exception has stopped the run, later accounts send nothing and change nothing |
| Monitor.FoldStopsAt | src/main.py:96-106 | an account that raises before sending anything ends the run with the messages of the accounts before it |
| Monitor.FailedFetchEndsRun | src/main.py:96-97 | a failed fetch ends the run at that account: only the messages of earlier accounts are sent |
| Monitor.CrashedIff | src/main.py:94-106 | the loop over the first n accounts stops exactly when one of their steps raises |
| Monitor.RunStopsIff | src/main.py:93-106 | the loop over all accounts stops exactly when some account's fetch failed, or some account's clock readings are in the window while the fixed account's record is missing |
| Monitor.FetchesSucceedNoCrash | src/main.py:93-106 | when every account's fetch succeeds, and the fixed account's record was fetched or no clock reading is in the window, the run does not stop early |
| Monitor.RunExitStatus | src/main.py:89-110 | without a configuration, or when fetching the fixed account's record raised, nothing is sent and the status is 1; otherwise the status is 1 exactly when some account raises, the healthcheck is pinged exactly when the status is not 1, and then the status is 0 or 2 as the ping succeeded or failed |
| Monitor.RunStep | src/main.py:94-106 | one pass of the inner loop: the current account is the next one of the run, its messages are appended, and a step that raises fixes the messages of the whole run |
| Monitor.ProcessAccount | src/main.py:96-106 | the loop body for one account does what `AccountStep` specifies: nothing and a stop on a failed fetch; otherwise the alarm when the guard fires, then the daily message when the clock is in the window, and a stop when that message cannot be built; it stops exactly when `Raises` holds |
| Monitor.Run | src/main.py:89-110 | the nested loops over currencies and accounts, followed by the healthcheck, produce exactly `RunSpec`: the messages of the accounts in order up to the first exception, the healthcheck ping and the exit status |

## Left out

- The HTTP requests of `get_user_stats` and `get_miners_stats`, which are not modelled. Their outcomes are `Fetch` inputs, and `get_miners_stats` is never called by the script.
- `send_tg_message` is modelled as appending the text to the list of messages passed to it. The Telegram request, its headers and credentials are not modelled. A non-200 answer is ignored by the caller, so leaving it out changes nothing. An exception raised by `requests.post` would end the run; that case is not modelled.
- `send_healthcheck`: the ping and its `print` are reduced to the boolean `healthcheckOk`.
- `load_config`: reading and decoding the file. The configuration is an `Option<Config>` input. Missing keys (`currency`, `tg_bot_token`, `tg_group_id`, `healthcheck_uuid`) and a malformed file, which raise `KeyError` or a decoding error, are not modelled.
- `write_log` and the log line of src/main.py:97-99: file output is not modelled. Only the indexing of the record on that line is kept, since it decides whether the run stops.
- The currency name of each configuration entry only selects the request URL, which is not modelled; `CurrencyAccounts` keeps it only to mirror the configuration file, and the loop uses the user names in file order.
- `Fetch.HttpFailure` does not keep the status code: the caller only indexes the returned string, which raises whatever the code was.
- JSON values: `balance` and `hashrate` are the text Python renders for them (float rendering is not modelled). Worker hashrates are integers; a JSON float `0.0` would also compare equal to 0. Statistics records that lack a key, which would raise `KeyError`, are not modelled.
- `MULT` (src/main.py:7) is unused by the script.
- Alarms.CrlfCountOfReport: counts lines by their CRLF only when worker names hold no CRLF; a name that holds one makes the count larger.
- `exit` is modelled as the `exitCode` of the result rather than as a `SystemExit` exception.
