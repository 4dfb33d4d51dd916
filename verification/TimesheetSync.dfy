/** Actual hours of a task as a rollup of submitted timesheet rows, and the nightly repair. */
module TimesheetSync {
  import opened Rounding
  import opened TaskForest

  type SheetId = nat

  datatype DetailRow = DetailRow(sheet: SheetId, task: TaskId, hours: real)

  /** Timesheets with their docstatus, and all their detail rows. */
  datatype Sheets = Sheets(status: map<SheetId, nat>, rows: seq<DetailRow>)

  type Hours = map<TaskId, real>

  const EPSILON: real := 0.005
  const CAP: nat := 500

  predicate Counts(sheets: Sheets, row: DetailRow, t: TaskId) {
    row.task == t && row.sheet in sheets.status && sheets.status[row.sheet] == 1
  }

  function SumRows(sheets: Sheets, t: TaskId, n: nat): real
    requires n <= |sheets.rows|
  {
    if n == 0 then 0.0
    else SumRows(sheets, t, n - 1) + if Counts(sheets, sheets.rows[n - 1], t) then sheets.rows[n - 1].hours else 0.0
  }

  /** The hours of the rows of `t` on timesheets with docstatus 1, from the first on. */
  function SubmittedHours(status: map<SheetId, nat>, rows: seq<DetailRow>, t: TaskId): real {
    if rows == [] then 0.0
    else
      SubmittedHours(status, rows[1..], t) +
      if rows[0].task != t then 0.0
      else if rows[0].sheet !in status || status[rows[0].sheet] != 1 then 0.0
      else rows[0].hours
  }

  lemma {:induction false} SubmittedOneMore(status: map<SheetId, nat>, rows: seq<DetailRow>, row: DetailRow, t: TaskId)
    ensures SubmittedHours(status, rows + [row], t) == SubmittedHours(status, rows, t) +
      if row.task == t && row.sheet in status && status[row.sheet] == 1 then row.hours else 0.0
  {
    if rows == [] {
      assert (rows + [row])[1..] == [];
    } else {
      assert (rows + [row])[1..] == rows[1..] + [row];
      SubmittedOneMore(status, rows[1..], row, t);
    }
  }

  lemma {:induction false} TruthIsSubmittedHours(sheets: Sheets, t: TaskId, n: nat)
    requires n <= |sheets.rows|
    ensures SumRows(sheets, t, n) == SubmittedHours(sheets.status, sheets.rows[..n], t)
  {
    if n > 0 {
      TruthIsSubmittedHours(sheets, t, n - 1);
      assert sheets.rows[..n] == sheets.rows[..n - 1] + [sheets.rows[n - 1]];
      SubmittedOneMore(sheets.status, sheets.rows[..n - 1], sheets.rows[n - 1], t);
    }
  }

  /** The hours of the submitted rows of a task. */
  function Truth(sheets: Sheets, t: TaskId): real {
    SumRows(sheets, t, |sheets.rows|)
  }

  predicate Drifts(sheets: Sheets, hours: Hours, t: TaskId) {
    t in hours && Abs(hours[t] - Truth(sheets, t)) > EPSILON
  }

  function Drifting(sheets: Sheets, hours: Hours): set<TaskId> {
    set t | t in hours && Drifts(sheets, hours, t)
  }

  function Synced(sheets: Sheets, hours: Hours, tasks: set<TaskId>): Hours {
    map t | t in hours :: if t in tasks then Round2(Truth(sheets, t)) else hours[t]
  }

  function TasksOn(sheets: Sheets, s: SheetId): set<TaskId> {
    set row | row in sheets.rows && row.sheet == s && row.task != NO_TASK :: row.task
  }

  class HoursTable {
    var sheets: Sheets
    var hours: Hours

    method SyncTaskActualHours(task: TaskId)
      requires NO_TASK !in hours
      modifies this`hours
      ensures hours == Synced(sheets, old(hours), {task})
      ensures hours.Keys == old(hours).Keys && forall t :: t in hours && t != task ==> hours[t] == old(hours)[t]
      ensures task in hours ==> Abs(hours[task] - SubmittedHours(sheets.status, sheets.rows, task)) <= 0.005
    {
      if task == NO_TASK || task !in hours {
        return;
      }
      TruthIsSubmittedHours(sheets, task, |sheets.rows|);
      assert sheets.rows[..|sheets.rows|] == sheets.rows;
      RoundsToNearest(Truth(sheets, task));
      var total := 0.0;
      for n := 0 to |sheets.rows|
        invariant total == SumRows(sheets, task, n)
      {
        if Counts(sheets, sheets.rows[n], task) {
          total := total + sheets.rows[n].hours;
        }
      }
      hours := hours[task := Round2(total)];
    }

    method ResyncTasksOn(s: SheetId)
      requires NO_TASK !in hours
      modifies this`hours
      ensures hours == Synced(sheets, old(hours), TasksOn(sheets, s))
    {
      var tasks := TasksOn(sheets, s);
      var rest := tasks;
      while rest != {}
        invariant rest <= tasks && NO_TASK !in hours
        invariant hours == Synced(sheets, old(hours), tasks - rest)
        decreases rest
      {
        var t :| t in rest;
        SyncTaskActualHours(t);
        rest := rest - {t};
      }
    }

    /** A timesheet is submitted, and the hook resyncs the tasks on it. */
    method SubmitTimesheet(s: SheetId)
      requires s in sheets.status && sheets.status[s] == 0 && NO_TASK !in hours
      modifies this
      ensures sheets == Sheets(old(sheets).status[s := 1], old(sheets).rows)
      ensures hours == Synced(sheets, old(hours), TasksOn(sheets, s))
    {
      sheets := SetStatus(sheets, s, 1);
      ResyncTasksOn(s);
    }

    method CancelTimesheet(s: SheetId)
      requires s in sheets.status && sheets.status[s] == 1 && NO_TASK !in hours
      modifies this
      ensures sheets == Sheets(old(sheets).status[s := 2], old(sheets).rows)
      ensures hours == Synced(sheets, old(hours), TasksOn(sheets, s))
    {
      sheets := SetStatus(sheets, s, 2);
      ResyncTasksOn(s);
    }

    /** One repair run: it corrects as many drifting tasks as the cap allows, whichever the
        query happens to answer, and touches no other task. */
    method ReconcileActualHours() returns (count: nat)
      requires NO_TASK !in hours
      modifies this`hours
      ensures RepairStep(sheets, old(hours), hours)
      ensures count == |Drifting(sheets, old(hours))| - |Drifting(sheets, hours)|
      ensures var n := |Drifting(sheets, old(hours))|; count == if n <= 500 then n else 500
    {
      var drifting := Drifting(sheets, hours);
      var found := Pluck(drifting);
      ListsCount(found, drifting);
      if |found| > CAP {
        found := found[..CAP];
      }
      ghost var chosen := set t | t in found;
      ListsCount(found, chosen);
      SyncEndsDrift(sheets, hours, chosen);
      CountDifference(drifting, chosen);
      assert Chosen(sheets, hours, chosen);
      RepairAll(found);
      count := |found|;
    }

    method RepairAll(found: seq<TaskId>)
      requires forall t :: t in found ==> t in hours
      modifies this`hours
      ensures hours == Synced(sheets, old(hours), set t | t in found)
    {
      ghost var done: set<TaskId> := {};
      for i := 0 to |found|
        invariant forall t :: t in found[..i] <==> t in done
        invariant hours == Synced(sheets, old(hours), done)
      {
        assert found[..i + 1] == found[..i] + [found[i]];
        assert found[i] in found;
        done := done + {found[i]};
        hours := hours[found[i] := Round2(Truth(sheets, found[i]))];
      }
      assert found[..|found|] == found;
      assert done == set t | t in found;
    }
  }

  function SetStatus(sheets: Sheets, s: SheetId, docstatus: nat): Sheets {
    sheets.(status := sheets.status[s := docstatus])
  }

  lemma {:induction false} ListsCount(q: seq<TaskId>, s: set<TaskId>)
    requires Lists(q, s)
    ensures |q| == |s|
  {
    if q != [] {
      var last, init := q[|q| - 1], q[..|q| - 1];
      assert q == init + [last];
      assert Lists(init, s - {last});
      ListsCount(init, s - {last});
    }
  }

  lemma CountDifference(s: set<TaskId>, t: set<TaskId>)
    requires t <= s
    ensures |s - t| == |s| - |t|
  {
    assert s == (s - t) + t;
  }

  /** A task drifts when its hours are more than half a hundredth off the submitted ones. */
  lemma DriftMeans(sheets: Sheets, hours: Hours, t: TaskId)
    ensures t in Drifting(sheets, hours) <==>
      && t in hours
      && var off := hours[t] - SubmittedHours(sheets.status, sheets.rows, t); off > 0.005 || off < -0.005
  {
    TruthIsSubmittedHours(sheets, t, |sheets.rows|);
    assert sheets.rows[..|sheets.rows|] == sheets.rows;
  }

  /** A sync stores whole hundredths, the nearest to the submitted hours. */
  lemma SyncedMeans(sheets: Sheets, hours: Hours, tasks: set<TaskId>, t: TaskId)
    requires t in hours && t in tasks
    ensures var stored, exact := Synced(sheets, hours, tasks)[t], SubmittedHours(sheets.status, sheets.rows, t);
      (stored * 100.0).Floor as real == stored * 100.0 && stored - 0.005 <= exact <= stored + 0.005
  {
    TruthIsSubmittedHours(sheets, t, |sheets.rows|);
    assert sheets.rows[..|sheets.rows|] == sheets.rows;
    RoundsToNearest(Truth(sheets, t));
  }

  /** Which tasks a timesheet's hook resyncs: those named by its rows. */
  lemma TasksOnMeans(sheets: Sheets, s: SheetId, t: TaskId)
    ensures t in TasksOn(sheets, s) <==>
      t != "" && exists k :: 0 <= k < |sheets.rows| && sheets.rows[k].sheet == s && sheets.rows[k].task == t
  {
    if k :| 0 <= k < |sheets.rows| && sheets.rows[k].sheet == s && sheets.rows[k].task == t {
      assert sheets.rows[k] in sheets.rows;
    }
  }

  /** Syncing ends the drift of the synced tasks and leaves the others as they were. */
  lemma SyncEndsDrift(sheets: Sheets, hours: Hours, tasks: set<TaskId>)
    ensures Drifting(sheets, Synced(sheets, hours, tasks)) == Drifting(sheets, hours) - tasks
  {
    var after := Synced(sheets, hours, tasks);
    forall t | t in hours ensures Drifts(sheets, after, t) <==> Drifts(sheets, hours, t) && t !in tasks {
      RoundsToNearest(Truth(sheets, t));
    }
  }

  /** Some drifting tasks, as many as the cap allows, took their rounded sums. */
  ghost predicate RepairStep(sheets: Sheets, hours: Hours, after: Hours) {
    exists chosen: set<TaskId> :: Chosen(sheets, hours, chosen) && after == Synced(sheets, hours, chosen)
  }

  ghost predicate Chosen(sheets: Sheets, hours: Hours, chosen: set<TaskId>) {
    var n := |Drifting(sheets, hours)|;
    chosen <= Drifting(sheets, hours) && |chosen| == if n <= CAP then n else CAP
  }

  lemma RepairShrinksDrift(sheets: Sheets, hours: Hours, after: Hours)
    requires RepairStep(sheets, hours, after)
    ensures Drifting(sheets, after) <= Drifting(sheets, hours)
    ensures var n := |Drifting(sheets, hours)|; |Drifting(sheets, after)| == if n <= CAP then 0 else n - CAP
    ensures forall t :: t in hours && t !in Drifting(sheets, hours) ==> t in after && after[t] == hours[t]
  {
    var chosen :| Chosen(sheets, hours, chosen) && after == Synced(sheets, hours, chosen);
    SyncEndsDrift(sheets, hours, chosen);
    CountDifference(Drifting(sheets, hours), chosen);
  }

  /** The nights of a run of repairs, with the timesheets unchanged. */
  ghost predicate Nights(sheets: Sheets, nights: seq<Hours>) {
    nights != [] && forall i :: 0 <= i < |nights| - 1 ==> RepairStep(sheets, nights[i], nights[i + 1])
  }

  lemma {:induction false} DriftAfterNights(sheets: Sheets, nights: seq<Hours>, i: nat)
    requires Nights(sheets, nights) && i < |nights|
    ensures var n := |Drifting(sheets, nights[0])|;
      |Drifting(sheets, nights[i])| == if n <= CAP * i then 0 else n - CAP * i
  {
    if i > 0 {
      DriftAfterNights(sheets, nights, i - 1);
      assert RepairStep(sheets, nights[i - 1], nights[i]);
      RepairShrinksDrift(sheets, nights[i - 1], nights[i]);
    }
  }

  /** The repair converges, and exactly as fast as the cap allows. */
  lemma RepairConverges(sheets: Sheets, nights: seq<Hours>, i: nat)
    requires Nights(sheets, nights) && i < |nights|
    ensures Drifting(sheets, nights[i]) == {} <==> i >= (|Drifting(sheets, nights[0])| + CAP - 1) / CAP
  {
    DriftAfterNights(sheets, nights, i);
  }

  /** A task that is right on some night is right, and unchanged, on every later one. */
  lemma {:induction false} NothingIsRepairedTwice(sheets: Sheets, nights: seq<Hours>, i: nat, j: nat, t: TaskId)
    requires Nights(sheets, nights) && i <= j < |nights|
    requires t in nights[i] && t !in Drifting(sheets, nights[i])
    ensures t in nights[j] && t !in Drifting(sheets, nights[j]) && nights[j][t] == nights[i][t]
    decreases j - i
  {
    if i < j {
      assert RepairStep(sheets, nights[i], nights[i + 1]);
      RepairShrinksDrift(sheets, nights[i], nights[i + 1]);
      NothingIsRepairedTwice(sheets, nights, i + 1, j, t);
    }
  }

  // ---- The live path ----

  lemma {:induction false} OtherTasksKeepTheirSum(sheets: Sheets, s: SheetId, docstatus: nat, t: TaskId, n: nat)
    requires n <= |sheets.rows| && t != NO_TASK && t !in TasksOn(sheets, s)
    ensures SumRows(SetStatus(sheets, s, docstatus), t, n) == SumRows(sheets, t, n)
  {
    if n > 0 {
      OtherTasksKeepTheirSum(sheets, s, docstatus, t, n - 1);
      var row := sheets.rows[n - 1];
      assert row in sheets.rows;
    }
  }

  /** Submitting or cancelling a timesheet resyncs only the tasks on it, and that is enough:
      no task drifts that did not drift before, and those on the sheet are right. */
  lemma ResyncIsEnough(sheets: Sheets, hours: Hours, s: SheetId, docstatus: nat)
    requires NO_TASK !in hours
    ensures var after := SetStatus(sheets, s, docstatus);
      Drifting(after, Synced(after, hours, TasksOn(after, s))) == Drifting(sheets, hours) - TasksOn(sheets, s)
  {
    var after := SetStatus(sheets, s, docstatus);
    forall t | t in hours && t !in TasksOn(sheets, s) ensures Drifts(after, hours, t) == Drifts(sheets, hours, t) {
      OtherTasksKeepTheirSum(sheets, s, docstatus, t, |sheets.rows|);
    }
    SyncEndsDrift(after, hours, TasksOn(after, s));
  }
}
