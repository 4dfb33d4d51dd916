/** The last-run columns of a rule or workflow, kept by one conditional UPDATE per report. */
module LastRun {
  import opened Basics

  type Instant = int
  type Status = string

  /** When the gateway decided an outcome, and which. */
  datatype Report = Report(at: Instant, status: Status)

  /** `last` is None until a report was stored. */
  type Row = Option<Report>

  predicate Applies(row: Row, r: Report) {
    row.None? || row.value.at <= r.at
  }

  function After(row: Row, reports: seq<Report>): Row {
    if reports == [] then row
    else
      var earlier, r := After(row, reports[..|reports| - 1]), reports[|reports| - 1];
      if Applies(earlier, r) then Some(r) else earlier
  }

  class RunRow {
    var lastRunAt: Option<Instant>
    var lastRunStatus: Status

    function Stored(): Row
      reads this
    {
      if lastRunAt.None? then None else Some(Report(lastRunAt.value, lastRunStatus))
    }

    /** Answers whether the report was stored, and the status before it. */
    method UpdateLastRunIfNewer(status: Status, at: Option<Instant>, now: Instant) returns (updated: bool, previous: Status)
      modifies this
      ensures var r := Report(if at.Some? then at.value else now, status);
        && Stored() == After(old(Stored()), [r])
        && (updated <==> old(lastRunAt) == None || old(lastRunAt).value <= r.at)
        && (lastRunAt, lastRunStatus) == (if updated then (Some(r.at), status) else (old(lastRunAt), old(lastRunStatus)))
        && previous == old(lastRunStatus)
    {
      var when := if at.Some? then at.value else now;
      previous := lastRunStatus;
      updated := false;
      if lastRunAt.None? || lastRunAt.value <= when {
        lastRunAt, lastRunStatus := Some(when), status;
        updated := true;
      }
      assert [Report(when, status)][..0] == [];
    }
  }

  /** `r` is the newest there is: a report, or what the row held, and nothing is later. What
      the row held gives way to a report of the same time. */
  ghost predicate Newest(row: Row, reports: seq<Report>, r: Report) {
    && (row == Some(r) || r in reports)
    && (row.Some? ==> row.value.at <= r.at)
    && (forall q :: q in reports ==> q.at <= r.at)
    && (row == Some(r) ==> forall q :: q in reports && q.at == r.at ==> r in reports)
  }

  /** The row ends with a newest report, so its timestamp is the maximum. */
  lemma {:induction false} EndsWithNewest(row: Row, reports: seq<Report>)
    requires row.Some? || reports != []
    ensures After(row, reports).Some?
    ensures Newest(row, reports, After(row, reports).value)
  {
    if reports != [] {
      var init, r := reports[..|reports| - 1], reports[|reports| - 1];
      assert reports == init + [r];
      if row.Some? || init != [] {
        EndsWithNewest(row, init);
      }
    }
  }

  /** The newest reports all tell the same status. */
  ghost predicate NewestAgree(row: Row, reports: seq<Report>) {
    forall q, r :: Newest(row, reports, q) && Newest(row, reports, r) ==> q == r
  }

  ghost predicate SameReports(a: seq<Report>, b: seq<Report>) {
    forall r :: r in a <==> r in b
  }

  /** Redelivery in any order, any number of times each, changes nothing. */
  lemma RedeliveryChangesNothing(row: Row, a: seq<Report>, b: seq<Report>)
    requires SameReports(a, b) && NewestAgree(row, a)
    ensures After(row, a) == After(row, b)
  {
    assert b == [] || b[0] in b;
    if a != [] {
      assert a[0] in a;
      EndsWithNewest(row, a);
      EndsWithNewest(row, b);
      assert Newest(row, a, After(row, b).value);
    }
  }

  function LastBut(a: seq<Report>, i: nat): seq<Report>
    requires i < |a|
  {
    a[..i] + a[i + 1..] + [a[i]]
  }

  lemma MoveLast(row: Row, a: seq<Report>, i: nat)
    requires i < |a| && Newest(row, a, a[i])
    ensures multiset(LastBut(a, i)) == multiset(a) && After(row, LastBut(a, i)) == Some(a[i])
  {
    var b := LastBut(a, i);
    assert a == a[..i] + [a[i]] + a[i + 1..];
    var init := b[..|b| - 1];
    assert init == a[..i] + a[i + 1..];
    if row.Some? || init != [] {
      EndsWithNewest(row, init);
      assert forall q :: q in init ==> q in a;
    }
  }

  /** The final row is the same for every order of delivery exactly when the newest reports
      agree; distinct timestamps per outcome are one way to have that. */
  lemma OrderIsIrrelevantIff(row: Row, a: seq<Report>)
    ensures (forall b :: multiset(b) == multiset(a) ==> After(row, b) == After(row, a)) <==> NewestAgree(row, a)
  {
    if NewestAgree(row, a) {
      forall b | multiset(b) == multiset(a) ensures After(row, b) == After(row, a) {
        assert forall r :: r in a <==> r in multiset(a);
        assert forall r :: r in b <==> r in multiset(b);
        RedeliveryChangesNothing(row, a, b);
      }
    } else {
      var q, r :| Newest(row, a, q) && Newest(row, a, r) && q != r;
      assert q in a && r in a;
      var i :| 0 <= i < |a| && a[i] == q;
      var j :| 0 <= j < |a| && a[j] == r;
      MoveLast(row, a, i);
      MoveLast(row, a, j);
    }
  }
}
