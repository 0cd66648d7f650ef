/**
 * The web-service scheduler: once a minute it checks the morning, midday and
 * afternoon windows and runs the export in each that is due, remembering the
 * last successful run of each. The clock is a parameter (`now`, in Eastern
 * time); whether each export raises is an input.
 */
module WebService {
  import opened Common

  /** A moment in Eastern time: its calendar date and its minute of the day. */
  datatype Instant = Instant(date: string, minute: nat)

  datatype RunKind = MorningRun | MiddayRun | AfternoonRun

  /** `abs(current - target)` in minutes. */
  function Distance(a: int, b: int): nat
  {
    if a >= b then a - b else b - a
  }

  /** `is_time_to_run`: never twice on one calendar date, else within 5 minutes of the target, without wrapping at midnight. */
  function IsTimeToRun(hour: int, minute: int, lastRun: Option<Instant>, now: Instant): (r: bool)
    ensures lastRun.Some? && lastRun.value.date == now.date ==> !r
    ensures !(lastRun.Some? && lastRun.value.date == now.date) ==>
      (r <==> -5 <= now.minute - (hour * 60 + minute) <= 5)
  {
    if lastRun.Some? && lastRun.value.date == now.date then false
    else Distance(now.minute, hour * 60 + minute) <= 5
  }

  /** 23:58 is not within five minutes of 00:01. */
  lemma NoMidnightWrap(date: string)
    ensures !IsTimeToRun(0, 1, None, Instant(date, 23 * 60 + 58))
  {
  }

  /** `int(t.split(':')[0])` and `int(t.split(':')[1]) if ':' in t else 0`; None where `int` raises. */
  function ParseTime(t: string): (r: Option<(int, int)>)
    ensures ':' !in t ==> r == (if PyInt(t).Some? then Some((PyInt(t).value, 0)) else None)
  {
    var parts := Split(t, ':');
    var hour := PyInt(parts[0]);
    if hour.None? then None
    else if ':' !in t then (SplitNone(t); Some((hour.value, 0)))
    else
      SplitHasSecond(t);
      var minute := PyInt(parts[1]);
      if minute.None? then None else Some((hour.value, minute.value))
  }

  lemma SplitNone(t: string)
    requires ':' !in t
    ensures Split(t, ':') == [t]
  {
    SplitJoin([t], ':');
  }

  lemma SplitHasSecond(t: string)
    requires ':' in t
    ensures |Split(t, ':')| >= 2
  {
    JoinSplit(t, ':');
  }

  /** An `HH:MM` time parses to its hour and minute. */
  lemma ParseTimeHhmm(m: nat)
    requires m < 24 * 60
    ensures ParseTime(Hhmm(m)) == Some(((m / 60) as int, (m % 60) as int))
  {
    SplitHhmm(m);
    Pad2Value(m / 60);
    Pad2Value(m % 60);
    assert Hhmm(m)[2] == ':';
  }

  /** A bare hour (no `:`) means minute 0. */
  lemma ParseTimeHourOnly(h: nat)
    ensures ParseTime(NatToString(h)) == Some((h as int, 0))
  {
    var t := NatToString(h);
    assert ':' !in t by {
      forall i | 0 <= i < |t| ensures t[i] != ':' {
        assert IsDigit(t[i]);
      }
    }
    StripDigits(t);
    ParseIntNatToString(h);
    assert PyInt(t) == Some(h as int);
  }

  const MorningDefault: string := "11:00"
  const MiddayDefault: string := "14:00"
  const AfternoonDefault: string := "16:30"

  const DefaultTimes: seq<(int, int)> := [(11, 0), (14, 0), (16, 30)]

  function EnvOr(v: Option<string>, default: string): string
  {
    if v.Some? then v.value else default
  }

  /**
   * The three scheduled times from `MORNING_CHECK_TIME`, `MIDDAY_CHECK_TIME` and
   * `AFTERNOON_CHECK_TIME`; if any of them fails to parse, all three are the defaults.
   */
  function ScheduleTimes(morning: Option<string>, midday: Option<string>, afternoon: Option<string>): (r: seq<(int, int)>)
    ensures |r| == 3
  {
    var a := ParseTime(EnvOr(morning, MorningDefault));
    var b := ParseTime(EnvOr(midday, MiddayDefault));
    var c := ParseTime(EnvOr(afternoon, AfternoonDefault));
    if a.Some? && b.Some? && c.Some? then [a.value, b.value, c.value] else DefaultTimes
  }

  /** Three well-formed `HH:MM` settings are used as given. */
  lemma ScheduleParsed(a: nat, b: nat, c: nat)
    requires a < 24 * 60 && b < 24 * 60 && c < 24 * 60
    ensures ScheduleTimes(Some(Hhmm(a)), Some(Hhmm(b)), Some(Hhmm(c))) ==
      [((a / 60) as int, (a % 60) as int), ((b / 60) as int, (b % 60) as int), ((c / 60) as int, (c % 60) as int)]
  {
    ParseTimeHhmm(a);
    ParseTimeHhmm(b);
    ParseTimeHhmm(c);
  }

  lemma MorningDefaultTime()
    ensures ParseTime(MorningDefault) == Some((11, 0))
  {
    assert 660 / 60 == 11 && 660 % 60 == 0;
    assert Pad2(11) == "11" && Pad2(0) == "00";
    assert Hhmm(660) == "11" + ":" + "00" == MorningDefault;
    ParseTimeHhmm(660);
  }

  lemma MiddayDefaultTime()
    ensures ParseTime(MiddayDefault) == Some((14, 0))
  {
    assert 840 / 60 == 14 && 840 % 60 == 0;
    assert Pad2(14) == "14" && Pad2(0) == "00";
    assert Hhmm(840) == "14" + ":" + "00" == MiddayDefault;
    ParseTimeHhmm(840);
  }

  lemma AfternoonDefaultTime()
    ensures ParseTime(AfternoonDefault) == Some((16, 30))
  {
    assert 990 / 60 == 16 && 990 % 60 == 30;
    assert Pad2(16) == "16" && Pad2(30) == "30";
    assert Hhmm(990) == "16" + ":" + "30" == AfternoonDefault;
    ParseTimeHhmm(990);
  }

  /** Unset variables give the defaults. */
  lemma ScheduleDefaults()
    ensures ScheduleTimes(None, None, None) == DefaultTimes
  {
    MorningDefaultTime();
    MiddayDefaultTime();
    AfternoonDefaultTime();
  }

  /** One malformed time discards the other two settings. */
  lemma OneBadTimeResetsAll()
    ensures ScheduleTimes(Some("09:15"), Some("noon"), None) == DefaultTimes
  {
    assert ParseTime("noon") == None by {
      assert PyInt("noon") == None by {
        assert Strip("noon") == "noon";
      }
      SplitNone("noon");
    }
    assert ParseTime(EnvOr(Some("noon"), MiddayDefault)) == None;
  }

  /** The last-run value after a due check: set to `now` only when the export returned. */
  function AfterCheck(last: Option<Instant>, due: bool, raised: bool, now: Instant): (r: Option<Instant>)
    ensures due && !raised ==> r == Some(now)
    ensures !(due && !raised) ==> r == last
  {
    if due && !raised then Some(now) else last
  }

  /** After a successful run, no later tick of the same date runs that window again. */
  lemma OncePerDay(hour: int, minute: int, last: Option<Instant>, raised: bool, now: Instant, later: Instant)
    requires IsTimeToRun(hour, minute, last, now) && !raised && later.date == now.date
    ensures !IsTimeToRun(hour, minute, AfterCheck(last, true, raised, now), later)
  {
  }

  /** After a raising run the window stays due at every later tick of the window. */
  lemma RetriedNextTick(hour: int, minute: int, last: Option<Instant>, now: Instant, later: Instant)
    requires IsTimeToRun(hour, minute, last, now)
    requires later.date == now.date && Distance(later.minute, hour * 60 + minute) <= 5
    ensures IsTimeToRun(hour, minute, AfterCheck(last, true, true, now), later)
  {
  }

  function Due(times: seq<(int, int)>, k: nat, last: Option<Instant>, now: Instant): bool
    requires k < |times|
  {
    IsTimeToRun(times[k].0, times[k].1, last, now)
  }

  /** `perform_test_run` as written calls `export_csv` with keyword arguments it does not accept: a TypeError, caught. */
  function TestRunAsWritten(exportResult: Option<bool>): (ok: bool)
  {
    false
  }

  /** The evidently intended test run: the export's truthy result; an exception means False. */
  function TestRun(exportResult: Option<bool>): (ok: bool)
    ensures ok <==> exportResult == Some(true)
  {
    exportResult.Some? && exportResult.value
  }

  /** The startup test run, as written, is reported failed even when the export would succeed. */
  lemma TestRunAlwaysFails()
    ensures !TestRunAsWritten(Some(true)) && TestRun(Some(true))
  {
  }

  /** The three last-run globals. */
  class Scheduler {
    var lastMorningRun: Option<Instant>
    var lastMiddayRun: Option<Instant>
    var lastAfternoonRun: Option<Instant>

    constructor ()
      ensures lastMorningRun.None? && lastMiddayRun.None? && lastAfternoonRun.None?
    {
      lastMorningRun := None;
      lastMiddayRun := None;
      lastAfternoonRun := None;
    }

    /**
     * `scheduled_task` at `now`: the windows are checked independently in the
     * order morning, midday, afternoon; `runs` lists the exports started.
     * `raises(k)` is whether the export of window k raises.
     */
    method ScheduledTask(now: Instant, morning: Option<string>, midday: Option<string>, afternoon: Option<string>,
                         raises: RunKind -> bool)
      returns (runs: seq<RunKind>)
      modifies this
      ensures var times := ScheduleTimes(morning, midday, afternoon);
        var d0 := Due(times, 0, old(lastMorningRun), now);
        var d1 := Due(times, 1, old(lastMiddayRun), now);
        var d2 := Due(times, 2, old(lastAfternoonRun), now);
        lastMorningRun == AfterCheck(old(lastMorningRun), d0, raises(MorningRun), now) &&
        lastMiddayRun == AfterCheck(old(lastMiddayRun), d1, raises(MiddayRun), now) &&
        lastAfternoonRun == AfterCheck(old(lastAfternoonRun), d2, raises(AfternoonRun), now) &&
        runs == (if d0 then [MorningRun] else []) + (if d1 then [MiddayRun] else []) + (if d2 then [AfternoonRun] else [])
    {
      var times := ScheduleTimes(morning, midday, afternoon);
      runs := RunWindows(now, times, raises);
    }

    /** The three window checks of `scheduled_task`, for given scheduled times. */
    method RunWindows(now: Instant, times: seq<(int, int)>, raises: RunKind -> bool) returns (runs: seq<RunKind>)
      requires |times| == 3
      modifies this
      ensures var d0 := Due(times, 0, old(lastMorningRun), now);
        var d1 := Due(times, 1, old(lastMiddayRun), now);
        var d2 := Due(times, 2, old(lastAfternoonRun), now);
        lastMorningRun == AfterCheck(old(lastMorningRun), d0, raises(MorningRun), now) &&
        lastMiddayRun == AfterCheck(old(lastMiddayRun), d1, raises(MiddayRun), now) &&
        lastAfternoonRun == AfterCheck(old(lastAfternoonRun), d2, raises(AfternoonRun), now) &&
        runs == (if d0 then [MorningRun] else []) + (if d1 then [MiddayRun] else []) + (if d2 then [AfternoonRun] else [])
    {
      runs := [];
      if IsTimeToRun(times[0].0, times[0].1, lastMorningRun, now) {
        runs := runs + [MorningRun];
        if !raises(MorningRun) {
          lastMorningRun := Some(now);
        }
      }
      if IsTimeToRun(times[1].0, times[1].1, lastMiddayRun, now) {
        runs := runs + [MiddayRun];
        if !raises(MiddayRun) {
          lastMiddayRun := Some(now);
        }
      }
      if IsTimeToRun(times[2].0, times[2].1, lastAfternoonRun, now) {
        runs := runs + [AfternoonRun];
        if !raises(AfternoonRun) {
          lastAfternoonRun := Some(now);
        }
      }
    }

    /** `trigger_run`: only the three run types are accepted (else 400); the run then updates its own last-run time unless it raises. */
    method TriggerRun(runType: string, now: Instant, raised: bool) returns (status: nat)
      modifies this
      ensures status == 400 <==> runType !in ["morning", "midday", "afternoon"]
      ensures status != 400 ==> status == 200
      ensures lastMorningRun == (if runType == "morning" && !raised then Some(now) else old(lastMorningRun))
      ensures lastMiddayRun == (if runType == "midday" && !raised then Some(now) else old(lastMiddayRun))
      ensures lastAfternoonRun == (if runType == "afternoon" && !raised then Some(now) else old(lastAfternoonRun))
    {
      if runType !in ["morning", "midday", "afternoon"] {
        return 400;
      }
      if !raised {
        if runType == "morning" {
          lastMorningRun := Some(now);
        } else if runType == "midday" {
          lastMiddayRun := Some(now);
        } else {
          lastAfternoonRun := Some(now);
        }
      }
      return 200;
    }
  }
}
