/** The application shell's list of reports: newest first, only ever prepended
    to, and shown either as its first five entries (home view) or whole
    (reports view). The clock reading that becomes the id is a parameter. */
module Store {
  import opened Records

  /** How many reports the home view shows. */
  const HomeLimit: nat := 5

  function Min(a: int, b: int): int {
    if a <= b then a else b
  }

  /** Stores a submitted report in front of the others. The stored copy keeps
      every field of the submission except `status`, forced to pending, and
      `id`, set from the clock reading `now`. */
  function Submit(reports: seq<Report>, report: Report, now: int): (r: seq<Report>)
    ensures |r| == |reports| + 1
    ensures r[1..] == reports
    ensures r[0].status == Some(PendingStatus) && r[0].id == Some(now)
    ensures && r[0].crimeType == report.crimeType
            && r[0].description == report.description
            && r[0].location == report.location
            && r[0].timestamp == report.timestamp
  {
    [report.(status := Some(PendingStatus), id := Some(now))] + reports
  }

  /** The home view: the most recent reports, at most five. */
  function HomeView(reports: seq<Report>): (v: seq<Report>)
    ensures |v| == Min(HomeLimit, |reports|)
    ensures v == reports[..|v|]
  {
    if |reports| <= HomeLimit then reports else reports[..HomeLimit]
  }

  /** The reports view: every stored report. */
  function ReportsView(reports: seq<Report>): (v: seq<Report>)
    ensures |v| == |reports|
    ensures forall i :: 0 <= i < |v| ==> v[i] == reports[i]
  {
    reports
  }

  /** The home view is the start of the reports view, and the two agree exactly
      when at most five reports are stored. */
  lemma HomeViewIsPrefixOfReportsView(reports: seq<Report>)
    ensures HomeView(reports) <= ReportsView(reports)
    ensures HomeView(reports) == ReportsView(reports) <==> |reports| <= HomeLimit
  {
  }

  /** Right after a submission the new report heads both views. */
  lemma NewestShownFirst(reports: seq<Report>, report: Report, now: int)
    ensures var s := Submit(reports, report, now);
      HomeView(s)[0] == ReportsView(s)[0] == report.(status := Some(PendingStatus), id := Some(now))
  {
  }

  /** Submitting several reports one after another, each with its clock reading. */
  function SubmitAll(reports: seq<Report>, batch: seq<(Report, int)>): seq<Report>
    decreases |batch|
  {
    if batch == [] then reports
    else SubmitAll(Submit(reports, batch[0].0, batch[0].1), batch[1..])
  }

  /** Stored reports are never removed or edited: after any series of
      submissions the earlier list is still the tail of the store, every new
      report is pending, and the newest submission sits in front: that very
      report, stamped pending with its own clock reading. */
  lemma {:induction false} SubmitAllKeepsHistory(reports: seq<Report>, batch: seq<(Report, int)>)
    ensures var r := SubmitAll(reports, batch);
      && |r| == |reports| + |batch|
      && r[|batch|..] == reports
      && (forall i :: 0 <= i < |batch| ==> r[i].status == Some(PendingStatus))
      && (batch != [] ==> r[0].id == Some(batch[|batch| - 1].1))
      && (batch != [] ==> r[0] == batch[|batch| - 1].0.(status := Some(PendingStatus), id := Some(batch[|batch| - 1].1)))
    decreases |batch|
  {
    if batch != [] {
      var s := Submit(reports, batch[0].0, batch[0].1);
      SubmitAllKeepsHistory(s, batch[1..]);
      var r := SubmitAll(reports, batch);
      assert r == SubmitAll(s, batch[1..]);
      assert r[|batch|..] == r[|batch| - 1..][1..];
      assert r[|batch| - 1..] == s;
      forall i | 0 <= i < |batch|
        ensures r[i].status == Some(PendingStatus)
      {
        if i == |batch| - 1 {
          assert r[i] == s[0];
        }
      }
      if |batch| == 1 {
        assert r[0] == s[0];
      } else {
        assert batch[1..][|batch| - 2] == batch[|batch| - 1];
      }
    }
  }
}
