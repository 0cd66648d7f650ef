/**
 * The browser-driven call-log export: its default dates, the export's
 * success conditions, the download check, and the date read back from the
 * downloaded file's name. The browser steps are inputs (whether each one
 * succeeded); the clock gives `yesterday` and `today` as strings.
 */
module CsvExport {
  import opened Common

  /** `start_date or yesterday`, then `end_date or start_date`; supplied values are kept. */
  function DefaultDates(start: Option<string>, end: Option<string>, yesterday: string): (r: (string, string))
    ensures Present(start) ==> r.0 == start.value
    ensures !Present(start) ==> r.0 == yesterday
    ensures Present(end) ==> r.1 == end.value
    ensures !Present(end) ==> r.1 == r.0
  {
    var s := if Present(start) then start.value else yesterday;
    var e := if Present(end) then end.value else s;
    (s, e)
  }

  /** A file counts as the download iff it is a `.csv`, its lower-cased name has `call-logs`, and it is under 300 s old. */
  predicate IsDownload(name: string, ageSeconds: real)
  {
    EndsWith(name, ".csv") && Contains(Lower(name), "call-logs") && ageSeconds < 300.0
  }

  /** A directory listing (names with ages) that shows the download. */
  predicate ShowsDownload(listing: seq<(string, real)>)
  {
    exists f :: 0 <= f < |listing| && IsDownload(listing[f].0, listing[f].1)
  }

  /**
   * The polling loop of `click_export_csv`: each poll is a directory listing with
   * file ages; it stops at the first poll that shows a download. `polls` holds the
   * listings seen before the five-minute timeout.
   */
  method WaitForDownload(polls: seq<seq<(string, real)>>) returns (downloaded: bool, pollsUsed: nat)
    ensures pollsUsed <= |polls|
    ensures downloaded <==> exists p :: 0 <= p < |polls| && ShowsDownload(polls[p])
    ensures downloaded ==> pollsUsed > 0
    ensures downloaded ==> ShowsDownload(polls[pollsUsed - 1])
    ensures !downloaded ==> pollsUsed == |polls|
  {
    downloaded := false;
    pollsUsed := 0;
    while pollsUsed < |polls|
      invariant pollsUsed <= |polls|
      invariant !downloaded
      invariant forall p :: 0 <= p < pollsUsed ==> !ShowsDownload(polls[p])
    {
      var listing := polls[pollsUsed];
      var f := 0;
      while f < |listing|
        invariant f <= |listing|
        invariant forall g :: 0 <= g < f ==> !IsDownload(listing[g].0, listing[g].1)
      {
        if IsDownload(listing[f].0, listing[f].1) {
          downloaded := true;
          break;
        }
        f := f + 1;
      }
      pollsUsed := pollsUsed + 1;
      if downloaded {
        return;
      }
    }
  }

  /** `click_export_csv` and `set_date_range` return True on every path, found or not, raising or not. */
  function ClickExportCsv(downloaded: bool, raised: bool): (ok: bool)
  {
    true
  }

  datatype ExportResult = ExportResult(ok: bool, browserCreated: bool, browserQuit: bool, dates: Option<(string, string)>)

  /**
   * `export_call_logs_csv`: a missing account ID fails before anything else; the
   * browser, once created, is quit on every path; only browser setup, login or
   * navigation can make the export fail.
   */
  function ExportCallLogsCsv(accountId: Option<string>, start: Option<string>, end: Option<string>, yesterday: string,
                             browserUp: bool, loggedIn: bool, navigated: bool, downloaded: bool, exportRaised: bool): (r: ExportResult)
    ensures r.ok <==> Present(accountId) && browserUp && loggedIn && navigated
    ensures r.browserQuit <==> r.browserCreated
    ensures r.browserCreated <==> Present(accountId) && browserUp
    ensures r.dates.Some? <==> Present(accountId)
    ensures r.dates.Some? ==> r.dates.value == DefaultDates(start, end, yesterday)
  {
    if !Present(accountId) then ExportResult(false, false, false, None)
    else
      var dates := DefaultDates(start, end, yesterday);
      if !browserUp then ExportResult(false, false, false, Some(dates))
      else if !loggedIn || !navigated then ExportResult(false, true, true, Some(dates))
      else
        var dateRangeSet := true;
        ExportResult(dateRangeSet && ClickExportCsv(downloaded, exportRaised), true, true, Some(dates))
  }

  /** The date reported for a downloaded file: the last three `-` fields, `.csv` dropped; else today. */
  function FilenameDate(filename: string, today: string): string
  {
    var parts := Split(filename, '-');
    if |parts| >= 3 then
      parts[|parts| - 3] + "-" + parts[|parts| - 2] + "-" + ReplaceAll(parts[|parts| - 1], ".csv", "")
    else today
  }

  /** A name of at least three `-` fields yields its last three, `.csv` removed from the last. */
  lemma FilenameDateFields(parts: seq<string>, today: string)
    requires |parts| >= 3 && forall k :: 0 <= k < |parts| ==> '-' !in parts[k]
    ensures FilenameDate(Join(parts, '-'), today) ==
      parts[|parts| - 3] + "-" + parts[|parts| - 2] + "-" + ReplaceAll(parts[|parts| - 1], ".csv", "")
  {
    SplitJoin(parts, '-');
  }

  /** A name of fewer than three `-` fields yields today's date. */
  lemma FilenameDateFallback(parts: seq<string>, today: string)
    requires 0 < |parts| < 3 && forall k :: 0 <= k < |parts| ==> '-' !in parts[k]
    ensures FilenameDate(Join(parts, '-'), today) == today
  {
    SplitJoin(parts, '-');
  }

  /** `d + ".csv"` with `.csv` removed is `d`, for a day field without a dot. */
  lemma {:induction false} DropCsvSuffix(d: string)
    requires '.' !in d
    ensures ReplaceAll(d + ".csv", ".csv", "") == d
    decreases |d|
  {
    var s := d + ".csv";
    if |d| == 0 {
      assert s == ".csv";
      assert s[4..] == "";
    } else {
      assert s[0] == d[0] && d[0] != '.';
      assert s[..4] != ".csv";
      assert s[1..] == d[1..] + ".csv";
      DropCsvSuffix(d[1..]);
    }
  }

  /** `call-logs-Y-M-D.csv` reports the date `Y-M-D`. */
  lemma CallLogsFileDate(y: string, m: string, d: string, today: string)
    requires '-' !in y && '-' !in m && '-' !in d && '.' !in d
    ensures FilenameDate("call-logs-" + y + "-" + m + "-" + d + ".csv", today) == y + "-" + m + "-" + d
  {
    var parts := ["call", "logs", y, m, d + ".csv"];
    assert Join(parts, '-') == "call-logs-" + y + "-" + m + "-" + d + ".csv" by {
      assert Join(parts[4..], '-') == d + ".csv";
      assert Join(parts[3..], '-') == m + "-" + d + ".csv";
      assert Join(parts[2..], '-') == y + "-" + m + "-" + d + ".csv";
    }
    assert '-' !in d + ".csv" by {
      assert forall i :: 0 <= i < |d + ".csv"| ==> (d + ".csv")[i] != '-' by {
        forall i | 0 <= i < |d + ".csv"| ensures (d + ".csv")[i] != '-' {
          if i < |d| { assert (d + ".csv")[i] == d[i]; } else { assert (d + ".csv")[i] == ".csv"[i - |d|]; }
        }
      }
    }
    FilenameDateFields(parts, today);
    DropCsvSuffix(d);
  }
}
