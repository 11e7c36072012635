/** The alarm evaluator `check_alarms` (src/main.py:43-50): from one
    account's statistics it builds the text of the alarm message, empty when
    every worker is online and hashing. */
module Alarms {
  import opened Wrappers
  import opened Decimal
  import opened Pool
  import opened Text

  const OfflinePrefix := "Not all miners online! "

  /** The summary set when the two counts differ: the TOTAL count comes first
      and the ONLINE count second, as the arguments of `format` are ordered. */
  function OfflineSummary(total: nat, online: nat): string {
    OfflinePrefix + NatToString(total) + " of " + NatToString(online) + " online"
  }

  /** The text the evaluator starts from: the summary, or nothing. */
  function Summary(stats: Stats): string {
    if stats.workerLength != stats.workerLengthOnline
    then OfflineSummary(stats.workerLength, stats.workerLengthOnline)
    else ""
  }

  /** The CRLF-terminated line reported for a worker whose hashrate is zero. */
  function AlarmLine(name: string): string {
    AlarmHead + name + AlarmNote + Crlf
  }

  const AlarmHead := "Alarm! Device "
  const AlarmNote := " has 0 hashrate!"
  const Crlf := "\r\n"

  /** The lines reported for `ws`, in list order. */
  function AlarmLines(ws: seq<Worker>): seq<string> {
    if ws == [] then []
    else
      var last := ws[|ws| - 1];
      AlarmLines(ws[..|ws| - 1]) + if last.hashrate == 0 then [AlarmLine(last.name)] else []
  }

  /** The lines joined with no separator. */
  function Concat(lines: seq<string>): string {
    if lines == [] then "" else Concat(lines[..|lines| - 1]) + lines[|lines| - 1]
  }

  /** What `check_alarms` returns: the summary (or nothing) followed directly
      by one line per zero-hashrate worker. */
  function AlarmReport(stats: Stats): string {
    Summary(stats) + Concat(AlarmLines(stats.workers))
  }

  /** `check_alarms`: the result starts as the summary (or empty) and is
      extended by one line for each zero-hashrate worker while walking the
      list. */
  method CheckAlarms(stats: Stats) returns (resp: string)
    ensures resp == AlarmReport(stats)
  {
    resp := "";
    if stats.workerLength != stats.workerLengthOnline {
      resp := OfflineSummary(stats.workerLength, stats.workerLengthOnline);
    }
    ghost var summary := Summary(stats);
    assert resp == summary;
    assert stats.workers[..0] == [];
    assert resp == summary + Concat(AlarmLines(stats.workers[..0]));
    for i := 0 to |stats.workers|
      invariant resp == summary + Concat(AlarmLines(stats.workers[..i]))
    {
      var wrk := stats.workers[i];
      assert stats.workers[..i + 1] == stats.workers[..i] + [wrk];
      AlarmTextSnoc(stats.workers[..i], wrk);
      ghost var done := Concat(AlarmLines(stats.workers[..i]));
      if wrk.hashrate == 0 {
        var line := AlarmLine(wrk.name);
        AppendAssoc(summary, done, line);
        resp := resp + line;
      } else {
        assert done + "" == done;
      }
    }
    assert stats.workers[..|stats.workers|] == stats.workers;
  }

  /** Walking one more worker extends the joined lines by its line, if any. */
  lemma AlarmTextSnoc(ws: seq<Worker>, w: Worker)
    ensures Concat(AlarmLines(ws + [w])) ==
      Concat(AlarmLines(ws)) + if w.hashrate == 0 then AlarmLine(w.name) else ""
  {
    var l := AlarmLines(ws);
    assert (ws + [w])[..|ws|] == ws;
    if w.hashrate == 0 {
      assert (l + [AlarmLine(w.name)])[..|l|] == l;
    } else {
      assert l + [] == l;
      assert Concat(l) + "" == Concat(l);
    }
  }

  /** The positions of the zero-hashrate workers, in increasing order: exactly
      the workers the evaluator reports. */
  function ZeroPositions(ws: seq<Worker>): (ps: seq<nat>)
    ensures forall k :: 0 <= k < |ps| ==> ps[k] < |ws| && ws[ps[k]].hashrate == 0
    ensures forall k, l :: 0 <= k < l < |ps| ==> ps[k] < ps[l]
    ensures forall i :: 0 <= i < |ws| && ws[i].hashrate == 0 ==> i in ps
  {
    if ws == [] then []
    else
      var init := ZeroPositions(ws[..|ws| - 1]);
      assert forall k :: 0 <= k < |init| ==> ws[init[k]] == ws[..|ws| - 1][init[k]];
      if ws[|ws| - 1].hashrate == 0 then init + [|ws| - 1] else init
  }

  /** One line per zero-hashrate worker and none for the others: the k-th
      line names the k-th zero-hashrate worker in list order. */
  lemma {:induction false} AlarmLinesAtZeroPositions(ws: seq<Worker>)
    ensures |AlarmLines(ws)| == |ZeroPositions(ws)|
    ensures forall k :: 0 <= k < |AlarmLines(ws)| ==>
      AlarmLines(ws)[k] == AlarmLine(ws[ZeroPositions(ws)[k]].name)
  {
    if ws != [] {
      var init, last := ws[..|ws| - 1], ws[|ws| - 1];
      AlarmLinesAtZeroPositions(init);
      var l, ps := AlarmLines(init), ZeroPositions(init);
      forall k | 0 <= k < |AlarmLines(ws)|
        ensures AlarmLines(ws)[k] == AlarmLine(ws[ZeroPositions(ws)[k]].name)
      {
        if k < |l| {
          assert AlarmLines(ws)[k] == l[k];
          assert ZeroPositions(ws)[k] == ps[k];
          assert ws[ps[k]] == init[ps[k]];
        } else {
          assert AlarmLines(ws) == l + [AlarmLine(last.name)];
          assert ZeroPositions(ws)[k] == |ws| - 1;
        }
      }
    }
  }

  /** The lines of a split list are the lines of its parts, in order. */
  lemma {:induction false} AlarmLinesAppend(a: seq<Worker>, b: seq<Worker>)
    ensures AlarmLines(a + b) == AlarmLines(a) + AlarmLines(b)
  {
    if b == [] {
      assert a + b == a;
    } else {
      var b' := b[..|b| - 1];
      assert (a + b)[..|a + b| - 1] == a + b';
      AlarmLinesAppend(a, b');
    }
  }

  lemma {:induction false} ConcatAppend(l1: seq<string>, l2: seq<string>)
    ensures Concat(l1 + l2) == Concat(l1) + Concat(l2)
  {
    if l2 == [] {
      assert l1 + l2 == l1;
    } else {
      var l2' := l2[..|l2| - 1];
      assert (l1 + l2)[..|l1 + l2| - 1] == l1 + l2';
      ConcatAppend(l1, l2');
    }
  }

  /** The joined alarm lines are empty exactly when there are no lines;
      otherwise they start with the `A` of `Alarm!`, end with the line feed
      of CRLF and are longer than one character. */
  lemma {:induction false} AlarmTextShape(ws: seq<Worker>)
    ensures Concat(AlarmLines(ws)) == "" <==> AlarmLines(ws) == []
    ensures Concat(AlarmLines(ws)) != "" ==>
      var t := Concat(AlarmLines(ws));
      |t| > 1 && t[0] == 'A' && t[|t| - 1] == '\n'
  {
    if ws != [] {
      var init := ws[..|ws| - 1];
      AlarmTextShape(init);
      var last := ws[|ws| - 1];
      if last.hashrate == 0 {
        var l := AlarmLines(init);
        assert (l + [AlarmLine(last.name)])[..|l|] == l;
      } else {
        assert AlarmLines(init) + [] == AlarmLines(init);
      }
    }
  }

  /** The report is empty if and only if the counts agree and no worker has
      zero hashrate. */
  lemma AlarmReportEmptyIff(stats: Stats)
    ensures AlarmReport(stats) == "" <==>
      stats.workerLength == stats.workerLengthOnline &&
      forall i :: 0 <= i < |stats.workers| ==> stats.workers[i].hashrate != 0
  {
    AlarmTextShape(stats.workers);
    AlarmLinesAtZeroPositions(stats.workers);
  }

  /** Every non-empty report is longer than one character. */
  lemma AlarmReportLength(stats: Stats)
    ensures AlarmReport(stats) != "" ==> |AlarmReport(stats)| > 1
  {
    AlarmTextShape(stats.workers);
  }

  /** A non-empty report opens with the `N` of `Not all miners online!` when
      the counts differ and with the `A` of `Alarm!` when they agree. */
  lemma AlarmReportStart(stats: Stats)
    ensures AlarmReport(stats) != "" ==>
      AlarmReport(stats)[0] == if stats.workerLength != stats.workerLengthOnline then 'N' else 'A'
  {
    AlarmTextShape(stats.workers);
    if stats.workerLength != stats.workerLengthOnline {
      var head := OfflinePrefix + NatToString(stats.workerLength);
      assert Summary(stats)[0] == head[0] == OfflinePrefix[0];
    }
  }

  /** Each zero-hashrate worker's line sits in the report between the lines
      of the workers before it and those of the workers after it. */
  lemma AlarmReportAroundZeroWorker(stats: Stats, i: nat)
    requires i < |stats.workers| && stats.workers[i].hashrate == 0
    ensures AlarmReport(stats) ==
      Summary(stats) + Concat(AlarmLines(stats.workers[..i]))
      + AlarmLine(stats.workers[i].name) + Concat(AlarmLines(stats.workers[i + 1..]))
  {
    var ws := stats.workers;
    var w := ws[i];
    assert ws == ws[..i] + [w] + ws[i + 1..];
    AlarmLinesAppend(ws[..i] + [w], ws[i + 1..]);
    AlarmLinesAppend(ws[..i], [w]);
    assert [w][..0] == [];
    assert AlarmLines([w]) == [AlarmLine(w.name)];
    ConcatAppend(AlarmLines(ws[..i]) + [AlarmLine(w.name)], AlarmLines(ws[i + 1..]));
    ConcatAppend(AlarmLines(ws[..i]), [AlarmLine(w.name)]);
    assert [AlarmLine(w.name)][..0] == [];
  }

  /** Workers that all hash add no line. */
  lemma {:induction false} NonZeroWorkersAddNothing(ws: seq<Worker>)
    requires forall i :: 0 <= i < |ws| ==> ws[i].hashrate != 0
    ensures AlarmLines(ws) == []
  {
    if ws != [] {
      NonZeroWorkersAddNothing(ws[..|ws| - 1]);
    }
  }

  /** When the counts differ, the first zero-hashrate worker's line follows
      the summary directly, with no separator. */
  lemma FirstAlarmFollowsSummary(stats: Stats, i: nat)
    requires stats.workerLength != stats.workerLengthOnline
    requires i < |stats.workers| && stats.workers[i].hashrate == 0
    requires forall j :: 0 <= j < i ==> stats.workers[j].hashrate != 0
    ensures AlarmReport(stats) ==
      OfflineSummary(stats.workerLength, stats.workerLengthOnline)
      + AlarmLine(stats.workers[i].name) + Concat(AlarmLines(stats.workers[i + 1..]))
  {
    var before := stats.workers[..i];
    AlarmReportAroundZeroWorker(stats, i);
    NonZeroWorkersAddNothing(before);
    var summary, line, after := Summary(stats), AlarmLine(stats.workers[i].name), Concat(AlarmLines(stats.workers[i + 1..]));
    assert summary == OfflineSummary(stats.workerLength, stats.workerLengthOnline);
    assert AlarmReport(stats) == summary + "" + line + after;
  }

  /** Reads the two counts back from a report that starts with the summary:
      `Some((total, online))`, or `None` when there is no summary. */
  function ParseOfflineSummary(r: string): Option<(nat, nat)> {
    if StartsWith(r, OfflinePrefix) then ParseCounts(r[|OfflinePrefix|..]) else None
  }

  /** Reads `<total> of <online> online` from the start of `s`. */
  function ParseCounts(s: string): Option<(nat, nat)> {
    match ParseLeadingNat(s)
    case None => None
    case Some((total, afterTotal)) =>
      if !StartsWith(afterTotal, " of ") then None
      else match ParseLeadingNat(afterTotal[4..])
        case None => None
        case Some((online, afterOnline)) =>
          if StartsWith(afterOnline, " online") then Some((total, online)) else None
  }

  lemma ParseCountsOf(total: nat, online: nat, tail: string)
    ensures ParseCounts(NatToString(total) + (" of " + (NatToString(online) + (" online" + tail)))) ==
      Some((total, online))
  {
    var o := NatToString(online);
    var afterOnline := " online" + tail;
    var afterTotal := " of " + (o + afterOnline);
    ParseLeadingNatOfRendering(total, afterTotal);
    StartsWithAppend(" of ", o + afterOnline);
    ParseLeadingNatOfRendering(online, afterOnline);
    StartsWithAppend(" online", tail);
  }

  /** A summary followed by any text is read back as its two counts. */
  lemma ParseOfflineSummaryOf(total: nat, online: nat, tail: string)
    ensures ParseOfflineSummary(OfflineSummary(total, online) + tail) == Some((total, online))
  {
    var t, o := NatToString(total), NatToString(online);
    var x := t + (" of " + (o + (" online" + tail)));
    assert OfflineSummary(total, online) + tail == OfflinePrefix + x;
    StartsWithAppend(OfflinePrefix, x);
    ParseCountsOf(total, online, tail);
  }

  /** Text that is empty or starts with the `A` of `Alarm!` is no summary. */
  lemma AlarmTextIsNoSummary(t: string)
    requires t == [] || t[0] == 'A'
    ensures !StartsWith(t, OfflinePrefix)
  {
  }

  /** The summary is present exactly when the counts differ, and it states the
      total count first and the online count second. */
  lemma OfflineSummaryReadBack(stats: Stats)
    ensures stats.workerLength != stats.workerLengthOnline ==>
      ParseOfflineSummary(AlarmReport(stats)) == Some((stats.workerLength, stats.workerLengthOnline))
    ensures stats.workerLength == stats.workerLengthOnline ==>
      ParseOfflineSummary(AlarmReport(stats)) == None
  {
    var tail := Concat(AlarmLines(stats.workers));
    if stats.workerLength != stats.workerLengthOnline {
      ParseOfflineSummaryOf(stats.workerLength, stats.workerLengthOnline, tail);
    } else {
      AlarmTextShape(stats.workers);
      assert AlarmReport(stats) == tail;
      AlarmTextIsNoSummary(tail);
    }
  }

  /** The number of CRLF pairs in `s`. */
  function CrlfCount(s: string): nat {
    if |s| < 2 then 0 else (if s[0] == '\r' && s[1] == '\n' then 1 else 0) + CrlfCount(s[1..])
  }

  /** Counting CRLF pairs is additive unless a pair straddles the join. */
  lemma {:induction false} CrlfCountAppend(a: string, b: string)
    requires a == [] || b == [] || a[|a| - 1] != '\r' || b[0] != '\n'
    ensures CrlfCount(a + b) == CrlfCount(a) + CrlfCount(b)
  {
    if b == [] {
      assert a + b == a;
    } else if a == [] {
      assert a + b == b;
    } else {
      var ab := a + b;
      assert ab[1..] == a[1..] + b;
      if |a| == 1 {
        assert ab[0] == a[0] && ab[1] == b[0];
        assert a[1..] + b == b;
        assert CrlfCount(ab) == CrlfCount(b);
      } else {
        assert ab[0] == a[0] && ab[1] == a[1];
        assert a[1..][|a[1..]| - 1] == a[|a| - 1];
        CrlfCountAppend(a[1..], b);
        assert CrlfCount(ab) == (if a[0] == '\r' && a[1] == '\n' then 1 else 0) + CrlfCount(a[1..] + b);
        assert CrlfCount(a) == (if a[0] == '\r' && a[1] == '\n' then 1 else 0) + CrlfCount(a[1..]);
      }
    }
  }

  /** Text without a carriage return holds no CRLF pair. */
  lemma {:induction false} NoCrNoCrlf(s: string)
    requires '\r' !in s
    ensures CrlfCount(s) == 0
  {
    if |s| >= 2 {
      assert s[0] in s;
      assert forall c :: c in s[1..] ==> c in s;
      NoCrNoCrlf(s[1..]);
    }
  }

  /** A zero-hashrate line holds one CRLF pair when the worker's name holds none. */
  lemma AlarmLineCrlf(name: string)
    requires CrlfCount(name) == 0
    ensures CrlfCount(AlarmLine(name)) == 1
  {
    var withName := AlarmHead + name;
    assert CrlfCount(withName) == 0 by {
      NoCrNoCrlf(AlarmHead);
      CrlfCountAppend(AlarmHead, name);
    }
    var withNote := withName + AlarmNote;
    assert CrlfCount(withNote) == 0 by {
      assert AlarmNote[0] == ' ';
      NoCrNoCrlf(AlarmNote);
      CrlfCountAppend(withName, AlarmNote);
    }
    assert CrlfCount(withNote + Crlf) == 1 by {
      assert withNote[|withNote| - 1] == AlarmNote[|AlarmNote| - 1] == '!';
      assert CrlfCount(Crlf) == 1;
      CrlfCountAppend(withNote, Crlf);
    }
  }

  lemma {:induction false} CrlfCountOfAlarmText(ws: seq<Worker>)
    requires forall i :: 0 <= i < |ws| ==> CrlfCount(ws[i].name) == 0
    ensures CrlfCount(Concat(AlarmLines(ws))) == |AlarmLines(ws)|
  {
    if ws != [] {
      var init, last := ws[..|ws| - 1], ws[|ws| - 1];
      CrlfCountOfAlarmText(init);
      var l := AlarmLines(init);
      if last.hashrate == 0 {
        assert (l + [AlarmLine(last.name)])[..|l|] == l;
        AlarmTextShape(init);
        AlarmLineCrlf(last.name);
        CrlfCountAppend(Concat(l), AlarmLine(last.name));
      } else {
        assert l + [] == l;
      }
    }
  }

  lemma SummaryHasNoCr(total: nat, online: nat)
    ensures '\r' !in OfflineSummary(total, online)
  {
  }

  /** When no worker name holds a CRLF pair, the report holds exactly one CRLF
      pair per zero-hashrate worker: the summary and the non-zero workers add
      none. */
  lemma CrlfCountOfReport(stats: Stats)
    requires forall i :: 0 <= i < |stats.workers| ==> CrlfCount(stats.workers[i].name) == 0
    ensures CrlfCount(AlarmReport(stats)) == |ZeroPositions(stats.workers)|
  {
    var ws := stats.workers;
    CrlfCountOfAlarmText(ws);
    AlarmLinesAtZeroPositions(ws);
    var s := Summary(stats);
    if s != "" {
      SummaryHasNoCr(stats.workerLength, stats.workerLengthOnline);
      NoCrNoCrlf(s);
      assert s[|s| - 1] in s;
    }
    CrlfCountAppend(s, Concat(AlarmLines(ws)));
  }
}
