/** The daily summary: the template of `generate_daily_stats`
    (src/main.py:53-55) and the message the run sends with it
    (src/main.py:105). */
module Daily {
  import opened Wrappers
  import opened Decimal
  import opened Pool
  import opened Text

  const CountsMiddle := " online from "
  const CountsEnd := " overall."

  /** The counts at the end of the summary: ONLINE first, then TOTAL (the
      opposite order to the alarm summary). */
  function CountsText(online: nat, total: nat): string {
    NatToString(online) + CountsMiddle + NatToString(total) + CountsEnd
  }

  /** `generate_daily_stats`: balance and hashrate as Python renders them,
      then the worker counts. */
  function DailyStats(stats: Stats): string {
    "Balance:" + stats.balance + ", hashrate: " + stats.hashrate + ", "
      + CountsText(stats.workerLengthOnline, stats.workerLength)
  }

  /** The daily message sent for account `user`: the summary prefixed by
      `Stats for:<user> - `. */
  function DailyMessage(user: string, stats: Stats): string {
    "Stats for:" + user + " - " + DailyStats(stats)
  }

  /** Reads `<online> online from <total> overall.` back from the end of a
      message: `Some((online, total))`, or `None` if it does not end so. */
  function ParseDailyCounts(msg: string): Option<(nat, nat)> {
    if !EndsWith(msg, CountsEnd) then None
    else match ParseTrailingNat(msg[..|msg| - |CountsEnd|])
      case None => None
      case Some((beforeTotal, total)) =>
        if !EndsWith(beforeTotal, CountsMiddle) then None
        else match ParseTrailingNat(beforeTotal[..|beforeTotal| - |CountsMiddle|])
          case None => None
          case Some((_, online)) => Some((online, total))
  }

  /** Whatever precedes the counts, as long as it does not end in a digit,
      the counts are read back exactly and in their order. */
  lemma ParseDailyCountsOf(head: string, online: nat, total: nat)
    requires head == [] || !IsDigit(head[|head| - 1])
    ensures ParseDailyCounts(head + CountsText(online, total)) == Some((online, total))
  {
    var o, t := NatToString(online), NatToString(total);
    var msg := head + CountsText(online, total);
    var beforeOnline := head + o;
    var beforeTotal := beforeOnline + CountsMiddle;
    var body := beforeTotal + t;
    assert msg == body + CountsEnd by {
      AppendAssoc(head, o + CountsMiddle + t, CountsEnd);
      AppendAssoc(head, o + CountsMiddle, t);
      AppendAssoc(head, o, CountsMiddle);
    }
    assert EndsWith(msg, CountsEnd) && msg[..|msg| - |CountsEnd|] == body by {
      EndsWithAppend(body, CountsEnd);
    }
    assert ParseTrailingNat(body) == Some((beforeTotal, total)) by {
      assert beforeTotal[|beforeTotal| - 1] == ' ';
      ParseTrailingNatOfRendering(beforeTotal, total);
    }
    assert EndsWith(beforeTotal, CountsMiddle) &&
      beforeTotal[..|beforeTotal| - |CountsMiddle|] == beforeOnline by {
      EndsWithAppend(beforeOnline, CountsMiddle);
    }
    assert ParseTrailingNat(beforeOnline) == Some((head, online)) by {
      ParseTrailingNatOfRendering(head, online);
    }
  }

  /** The summary and the message built from it both end with the online
      count followed by the total count, each read back exactly. */
  lemma DailyCountsReadBack(user: string, stats: Stats)
    ensures ParseDailyCounts(DailyStats(stats)) ==
      Some((stats.workerLengthOnline, stats.workerLength))
    ensures ParseDailyCounts(DailyMessage(user, stats)) ==
      Some((stats.workerLengthOnline, stats.workerLength))
  {
    var counts := CountsText(stats.workerLengthOnline, stats.workerLength);
    var head := "Balance:" + stats.balance + ", hashrate: " + stats.hashrate + ", ";
    assert head[|head| - 1] == ' ';
    ParseDailyCountsOf(head, stats.workerLengthOnline, stats.workerLength);
    var prefix := "Stats for:" + user + " - ";
    AppendAssoc(prefix, head, counts);
    var longHead := prefix + head;
    assert longHead[|longHead| - 1] == ' ';
    ParseDailyCountsOf(longHead, stats.workerLengthOnline, stats.workerLength);
  }
}
