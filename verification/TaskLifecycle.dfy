/** Soft trash and restore of task subtrees. */
module TaskLifecycle {
  import opened Basics
  import opened TaskForest

  type TimerId = nat

  datatype Failure = DoesNotExist

  function Live(rows: Tasks): set<TaskId> {
    set t | t in rows && !rows[t].deleted
  }

  function TrashedAt(rows: Tasks, stamp: Option<Instant>): set<TaskId> {
    set t | t in rows && rows[t].deleted && rows[t].deletedOn == stamp
  }

  function Trashed(rows: Tasks, gone: set<TaskId>, stamp: Instant, actor: User): Tasks {
    map t | t in rows ::
      if t in gone then rows[t].(deleted := true, deletedOn := Some(stamp), deletedBy := Some(actor)) else rows[t]
  }

  function Restored(rows: Tasks, back: set<TaskId>): Tasks {
    map t | t in rows ::
      if t in back then rows[t].(deleted := false, deletedOn := None, deletedBy := None) else rows[t]
  }

  function Without(timers: map<TimerId, TaskId>, gone: set<TaskId>): map<TimerId, TaskId> {
    map i | i in timers && timers[i] !in gone :: timers[i]
  }

  /** The tasks that deleting `t` trashes: its live subtree, empty when `t` is in trash. */
  ghost function Subtree(rows: Tasks, t: TaskId): set<TaskId> {
    Tree(ParentsOf(rows), Live(rows), t)
  }

  /** The tasks that restoring `t` revives: those hanging from it with its own stamp. */
  ghost function Cascade(rows: Tasks, t: TaskId, stamp: Option<Instant>): set<TaskId> {
    Tree(ParentsOf(rows), TrashedAt(rows, stamp), t)
  }

  ghost predicate Sound(rows: Tasks) {
    NO_TASK !in rows && Forest(ParentsOf(rows))
  }

  lemma HangsFromParent(up: Parents, keep: set<TaskId>, s: TaskId, t: TaskId)
    requires Named(up, keep)
    ensures s in Tree(up, keep, t) <==> s in keep && (s == t || up[s] in Tree(up, keep, t))
  {
    if s in keep {
      if n: nat :| Path(up, keep, s, t, n) {
        if n > 0 {
          assert Path(up, keep, up[s], t, n - 1);
          assert up[s] in keep;
        }
      }
      if s == t {
        assert Path(up, keep, s, t, 0);
      }
      if up[s] in keep {
        if m: nat :| Path(up, keep, up[s], t, m) {
          assert Path(up, keep, s, t, m + 1);
        }
      }
    }
  }

  /** Which tasks a deletion takes: live ones, the root, and the children of those it takes. */
  lemma SubtreeMeans(rows: Tasks, t: TaskId, s: TaskId)
    requires Sound(rows)
    ensures s in Subtree(rows, t) <==> s in rows && !rows[s].deleted && (s == t || rows[s].parent in Subtree(rows, t))
  {
    HangsFromParent(ParentsOf(rows), Live(rows), s, t);
  }

  /** Which tasks a restore revives: trashed ones with the stamp, the root, and the children of
      those it revives. */
  lemma CascadeMeans(rows: Tasks, t: TaskId, stamp: Option<Instant>, s: TaskId)
    requires Sound(rows)
    ensures s in Cascade(rows, t, stamp) <==>
      && s in rows && rows[s].deleted && rows[s].deletedOn == stamp
      && (s == t || rows[s].parent in Cascade(rows, t, stamp))
  {
    HangsFromParent(ParentsOf(rows), TrashedAt(rows, stamp), s, t);
  }

  class TrashTable {
    var rows: Tasks
    var timers: map<TimerId, TaskId>

    /** Trash the live subtree under one stamp; children first, the root last. */
    method TrashTree(issue: TaskId, stamp: Instant, actor: User) returns (changed: seq<TaskId>)
      requires Sound(rows) && issue in rows
      modifies this
      ensures var gone := Subtree(old(rows), issue);
        && rows == Trashed(old(rows), gone, stamp, actor)
        && timers == Without(old(timers), gone)
        && Lists(changed, gone)
        && (changed != [] ==> changed[|changed| - 1] == issue)
      decreases Below(ParentsOf(rows), issue)
    {
      hide Tree, Below, Forest;
      if rows[issue].deleted {
        NothingHangsOutside(ParentsOf(rows), Live(rows), issue);
        return [];
      }
      ghost var before, running := rows, timers;
      ghost var up, keep := ParentsOf(rows), Live(rows);
      ghost var gone: set<TaskId> := {};
      changed := [];
      var children := Pluck(set c | c in rows && rows[c].parent == issue && !rows[c].deleted);
      for k := 0 to |children|
        invariant Lists(children, Children(up, keep, issue))
        invariant rows == Trashed(before, gone, stamp, actor) && timers == Without(running, gone)
        invariant Lists(changed, gone)
        invariant TreesOf(up, keep, children[..k], gone)
      {
        var child := children[k];
        ghost var twig := Tree(up, keep, child);
        TrashReady(before, issue, children, k, gone, stamp, actor);
        var more := TrashTree(child, stamp, actor);
        TrashedTwice(before, gone, twig, stamp, actor);
        WithoutTwice(running, gone, twig);
        ListsJoin(changed, gone, more, twig);
        changed := changed + more;
        gone := gone + twig;
      }
      assert children[..|children|] == children;
      WholeTree(up, keep, issue, children, gone);
      ListsJoin(changed, gone, [issue], {issue});
      TrashedTwice(before, gone, {issue}, stamp, actor);
      WithoutTwice(running, gone, {issue});
      StopActiveTimers(issue);
      MarkTrashed(issue, stamp, actor);
      changed := changed + [issue];
    }

    method StopActiveTimers(issue: TaskId)
      modifies this`timers
      ensures timers == Without(old(timers), {issue})
    {
      timers := map i | i in timers && timers[i] != issue :: timers[i];
    }

    method MarkTrashed(issue: TaskId, stamp: Instant, actor: User)
      requires issue in rows
      modifies this`rows
      ensures rows == Trashed(old(rows), {issue}, stamp, actor)
    {
      rows := rows[issue := rows[issue].(deleted := true, deletedOn := Some(stamp), deletedBy := Some(actor))];
    }

    method MarkRestored(issue: TaskId)
      requires issue in rows
      modifies this`rows
      ensures rows == Restored(old(rows), {issue})
    {
      rows := rows[issue := rows[issue].(deleted := false, deletedOn := None, deletedBy := None)];
    }

    /** Revive the root and the descendants of its own cascade; the root first. */
    method RestoreTree(issue: TaskId, stamp: Option<Instant>) returns (changed: seq<TaskId>)
      requires Sound(rows) && issue in rows
      requires rows[issue].deleted ==> rows[issue].deletedOn == stamp
      modifies this`rows
      ensures var back := Cascade(old(rows), issue, stamp);
        && rows == Restored(old(rows), back)
        && Lists(changed, back)
        && (changed != [] ==> changed[0] == issue)
      decreases Below(ParentsOf(rows), issue)
    {
      hide Tree, Below, Forest, Restored;
      if !rows[issue].deleted {
        NothingHangsOutside(ParentsOf(rows), TrashedAt(rows, stamp), issue);
        RestoredNothing(rows);
        return [];
      }
      ghost var before := rows;
      ghost var up, keep := ParentsOf(rows), TrashedAt(rows, stamp);
      ghost var back: set<TaskId> := {};
      var children := Pluck(set c | c in rows && rows[c].parent == issue && rows[c].deleted && rows[c].deletedOn == stamp);
      MarkRestored(issue);
      changed := [issue];
      assert back + {issue} == {issue};
      for k := 0 to |children|
        invariant Lists(children, Children(up, keep, issue))
        invariant rows == Restored(before, back + {issue})
        invariant Lists(changed, back + {issue}) && changed[0] == issue
        invariant TreesOf(up, keep, children[..k], back)
      {
        var child := children[k];
        ghost var twig := Tree(up, keep, child);
        RestoreReady(before, issue, children, k, back, stamp);
        var more := RestoreTree(child, stamp);
        RestoredTwice(before, back + {issue}, twig);
        ListsJoin(changed, back + {issue}, more, twig);
        assert back + {issue} + twig == back + twig + {issue};
        changed := changed + more;
        back := back + twig;
      }
      assert children[..|children|] == children;
      WholeTree(up, keep, issue, children, back);
    }

    method DeleteTask(issue: TaskId, now: Instant, actor: User) returns (r: Result<seq<TaskId>, Failure>)
      requires Sound(rows)
      modifies this
      ensures r.Raised? <==> issue !in old(rows)
      ensures r.Raised? ==> rows == old(rows) && timers == old(timers)
      ensures r.Ok? ==> var gone := Subtree(old(rows), issue);
        rows == Trashed(old(rows), gone, now, actor) && timers == Without(old(timers), gone) && Lists(r.value, gone)
      ensures r.Ok? ==> rows.Keys == old(rows).Keys && forall t :: t in old(rows) ==>
        var row := old(rows)[t];
        rows[t] == if t in Subtree(old(rows), issue) then Task(row.project, row.parent, true, Some(now), Some(actor), row.links)
                   else row
      ensures r.Ok? ==>
        && (forall i :: i in timers <==> i in old(timers) && old(timers)[i] !in Subtree(old(rows), issue))
        && forall i :: i in timers ==> timers[i] == old(timers)[i]
    {
      if issue !in rows {
        return Raised(DoesNotExist);
      }
      if rows[issue].deleted {
        NothingHangsOutside(ParentsOf(rows), Live(rows), issue);
        return Ok([]);
      }
      var changed := TrashTree(issue, now, actor);
      return Ok(changed);
    }

    method RestoreTask(issue: TaskId) returns (r: Result<seq<TaskId>, Failure>)
      requires Sound(rows)
      modifies this`rows
      ensures r.Raised? <==> issue !in old(rows)
      ensures r.Raised? ==> rows == old(rows)
      ensures r.Ok? ==> var back := Cascade(old(rows), issue, old(rows[issue]).deletedOn);
        rows == Restored(old(rows), back) && Lists(r.value, back)
      ensures r.Ok? ==> rows.Keys == old(rows).Keys && forall t :: t in old(rows) ==>
        var row := old(rows)[t];
        rows[t] == if t in Cascade(old(rows), issue, old(rows)[issue].deletedOn) then
                     Task(row.project, row.parent, false, None, None, row.links)
                   else row
    {
      if issue !in rows {
        return Raised(DoesNotExist);
      }
      if !rows[issue].deleted {
        NothingHangsOutside(ParentsOf(rows), TrashedAt(rows, rows[issue].deletedOn), issue);
        return Ok([]);
      }
      var changed := RestoreTree(issue, rows[issue].deletedOn);
      return Ok(changed);
    }
  }

  /** `gone` is the union of the trees of the listed tasks. */
  ghost predicate TreesOf(up: Parents, keep: set<TaskId>, tops: seq<TaskId>, gone: set<TaskId>) {
    forall s :: s in gone <==> exists c :: c in tops && s in Tree(up, keep, c)
  }

  lemma NextTree(up: Parents, keep: set<TaskId>, t: TaskId, children: seq<TaskId>, k: nat, gone: set<TaskId>)
    requires Forest(up) && Named(up, keep) && t in keep
    requires Lists(children, Children(up, keep, t)) && k < |children|
    requires TreesOf(up, keep, children[..k], gone)
    ensures var twig := Tree(up, keep, children[k]);
      && twig !! gone && t !in twig && children[k] in Children(up, keep, t)
      && TreesOf(up, keep, children[..k + 1], gone + twig)
  {
    var child := children[k];
    var twig := Tree(up, keep, child);
    RootIsApart(up, keep, t, child);
    forall s | s in twig ensures s !in gone {
      forall c | c in children[..k] ensures s !in Tree(up, keep, c) {
        SiblingsAreApart(up, keep, t, child, c, s);
      }
    }
    assert children[..k + 1] == children[..k] + [child];
    forall s ensures s in gone + twig <==> exists c :: c in children[..k + 1] && s in Tree(up, keep, c) {
      if s in twig {
        assert child in children[..k + 1];
      }
    }
  }

  lemma WholeTree(up: Parents, keep: set<TaskId>, t: TaskId, children: seq<TaskId>, gone: set<TaskId>)
    requires Forest(up) && Named(up, keep) && t in keep
    requires Lists(children, Children(up, keep, t)) && TreesOf(up, keep, children, gone)
    ensures t !in gone && gone + {t} == Tree(up, keep, t)
  {
    forall c | c in children ensures t !in Tree(up, keep, c) {
      RootIsApart(up, keep, t, c);
    }
    forall s ensures s in gone + {t} <==> s in Tree(up, keep, t) {
      TreeSplits(up, keep, t, s);
    }
  }

  lemma TrashedKeeps(rows: Tasks, gone: set<TaskId>, stamp: Instant, actor: User)
    ensures var after := Trashed(rows, gone, stamp, actor);
      ParentsOf(after) == ParentsOf(rows) && Live(after) == Live(rows) - gone && after.Keys == rows.Keys
  {
  }

  lemma TrashedTwice(rows: Tasks, one: set<TaskId>, two: set<TaskId>, stamp: Instant, actor: User)
    ensures Trashed(Trashed(rows, one, stamp, actor), two, stamp, actor) == Trashed(rows, one + two, stamp, actor)
  {
  }

  lemma RestoredKeeps(rows: Tasks, back: set<TaskId>, stamp: Option<Instant>)
    ensures var after := Restored(rows, back);
      ParentsOf(after) == ParentsOf(rows) && TrashedAt(after, stamp) == TrashedAt(rows, stamp) - back && after.Keys == rows.Keys
  {
  }

  lemma WithoutTwice(timers: map<TimerId, TaskId>, one: set<TaskId>, two: set<TaskId>)
    ensures Without(Without(timers, one), two) == Without(timers, one + two)
  {
  }

  /** The next child still has the whole live subtree it had when the walk began. */
  lemma TrashReady(before: Tasks, t: TaskId, children: seq<TaskId>, k: nat, gone: set<TaskId>, stamp: Instant, actor: User)
    requires Sound(before) && t in Live(before)
    requires Lists(children, Children(ParentsOf(before), Live(before), t)) && k < |children|
    requires TreesOf(ParentsOf(before), Live(before), children[..k], gone)
    ensures var now, child := Trashed(before, gone, stamp, actor), children[k];
      var twig := Tree(ParentsOf(before), Live(before), child);
      && Sound(now) && child in now && Subtree(now, child) == twig
      && Below(ParentsOf(now), child) < Below(ParentsOf(before), t)
      && twig !! gone && TreesOf(ParentsOf(before), Live(before), children[..k + 1], gone + twig)
  {
    var up, keep := ParentsOf(before), Live(before);
    NextTree(up, keep, t, children, k, gone);
    TrashedKeeps(before, gone, stamp, actor);
    TreeStands(up, keep, keep - gone, children[k]);
    ChildIsLower(up, keep, t, children[k]);
  }

  lemma RestoreReady(before: Tasks, t: TaskId, children: seq<TaskId>, k: nat, back: set<TaskId>, stamp: Option<Instant>)
    requires Sound(before) && t in TrashedAt(before, stamp)
    requires Lists(children, Children(ParentsOf(before), TrashedAt(before, stamp), t)) && k < |children|
    requires TreesOf(ParentsOf(before), TrashedAt(before, stamp), children[..k], back)
    ensures var now, child := Restored(before, back + {t}), children[k];
      var twig := Tree(ParentsOf(before), TrashedAt(before, stamp), child);
      && Sound(now) && child in now && Cascade(now, child, stamp) == twig
      && (now[child].deleted ==> now[child].deletedOn == stamp)
      && Below(ParentsOf(now), child) < Below(ParentsOf(before), t)
      && twig !! back + {t} && TreesOf(ParentsOf(before), TrashedAt(before, stamp), children[..k + 1], back + twig)
  {
    var up, keep := ParentsOf(before), TrashedAt(before, stamp);
    NextTree(up, keep, t, children, k, back);
    RestoredKeeps(before, back + {t}, stamp);
    TreeStands(up, keep, keep - (back + {t}), children[k]);
    ChildIsLower(up, keep, t, children[k]);
  }

  lemma RestoredNothing(rows: Tasks)
    ensures Restored(rows, {}) == rows
  {
  }

  lemma RestoredTwice(rows: Tasks, one: set<TaskId>, two: set<TaskId>)
    ensures Restored(Restored(rows, one), two) == Restored(rows, one + two)
  {
  }

  /** A live task carries no trace of a deletion. */
  ghost predicate Clean(rows: Tasks) {
    forall t :: t in rows && !rows[t].deleted ==> rows[t].deletedOn == None && rows[t].deletedBy == None
  }

  function Reuses(rows: Tasks, stamp: Instant): set<TaskId> {
    set c | c in rows && rows[c].deleted && rows[c].deletedOn == Some(stamp)
  }

  ghost function Delete(rows: Tasks, t: TaskId, stamp: Instant, actor: User): Tasks {
    Trashed(rows, Subtree(rows, t), stamp, actor)
  }

  ghost function Restore(rows: Tasks, t: TaskId): Tasks
    requires t in rows
  {
    Restored(rows, Cascade(rows, t, rows[t].deletedOn))
  }

  /** Deleting a live task and restoring it puts every deletion field back, exactly when no
      task trashed before carries the same stamp right under the subtree. */
  lemma RestoreUndoesDelete(rows: Tasks, t: TaskId, stamp: Instant, actor: User)
    requires Sound(rows) && Clean(rows) && t in Live(rows)
    ensures Restore(Delete(rows, t, stamp, actor), t) == rows
       <==> forall c :: c in Reuses(rows, stamp) ==> rows[c].parent !in Subtree(rows, t)
  {
    var up, gone, after := ParentsOf(rows), Subtree(rows, t), Delete(rows, t, stamp, actor);
    TrashedKeeps(rows, gone, stamp, actor);
    assert Path(up, Live(rows), t, t, 0);
    assert t in gone;
    var back := Cascade(after, t, Some(stamp));
    CascadeHolds(rows, t, stamp, actor);
    if c :| c in Reuses(rows, stamp) && rows[c].parent in gone {
      assert rows[c].parent in back;
      var n: nat :| Path(up, TrashedAt(after, Some(stamp)), rows[c].parent, t, n);
      assert Path(up, TrashedAt(after, Some(stamp)), c, t, n + 1);
      assert c in back;
      assert Restore(after, t)[c] != rows[c];
    } else {
      forall s | s in back ensures s in gone {
        var n: nat :| Path(up, TrashedAt(after, Some(stamp)), s, t, n);
        CascadeStops(rows, t, stamp, actor, s, n);
      }
      assert back == gone;
      forall s | s in rows ensures Restore(after, t)[s] == rows[s] {
      }
    }
  }

  lemma CascadeHolds(rows: Tasks, t: TaskId, stamp: Instant, actor: User)
    requires Sound(rows)
    ensures Subtree(rows, t) <= Cascade(Delete(rows, t, stamp, actor), t, Some(stamp))
  {
    var up, gone, after := ParentsOf(rows), Subtree(rows, t), Delete(rows, t, stamp, actor);
    TrashedKeeps(rows, gone, stamp, actor);
    forall s | s in gone ensures s in Cascade(after, t, Some(stamp)) {
      var n: nat :| Path(up, Live(rows), s, t, n);
      PathStands(up, Live(rows), gone, s, t, n);
      PathGrows(up, gone, TrashedAt(after, Some(stamp)), s, t, n);
    }
  }

  lemma {:induction false} CascadeStops(rows: Tasks, t: TaskId, stamp: Instant, actor: User, s: TaskId, n: nat)
    requires Sound(rows) && t in Subtree(rows, t)
    requires forall c :: c in Reuses(rows, stamp) ==> rows[c].parent !in Subtree(rows, t)
    requires Path(ParentsOf(rows), TrashedAt(Delete(rows, t, stamp, actor), Some(stamp)), s, t, n)
    ensures s in Subtree(rows, t)
    decreases n
  {
    if n > 0 {
      CascadeStops(rows, t, stamp, actor, Up(ParentsOf(rows), s), n - 1);
      assert s !in Reuses(rows, stamp);
    }
  }

  datatype Deletion = Deletion(task: TaskId, stamp: Instant, actor: User)

  ghost function DeleteAll(rows: Tasks, ops: seq<Deletion>): Tasks {
    if ops == [] then rows else DeleteAll(Delete(rows, ops[0].task, ops[0].stamp, ops[0].actor), ops[1..])
  }

  /** Restores in the opposite order. */
  ghost function RestoreAll(rows: Tasks, ops: seq<Deletion>): (r: Tasks)
    requires forall d :: d in ops ==> d.task in rows
    ensures r.Keys == rows.Keys
  {
    if ops == [] then rows
    else
      var later := RestoreAll(rows, ops[1..]);
      assert ops[0] in ops;
      Restore(later, ops[0].task)
  }

  /** Every deletion hits a live task, under a stamp no trashed task carries. */
  ghost predicate Fresh(rows: Tasks, ops: seq<Deletion>) {
    ops == [] ||
    (ops[0].task in Live(rows) && Reuses(rows, ops[0].stamp) == {} &&
     Fresh(Delete(rows, ops[0].task, ops[0].stamp, ops[0].actor), ops[1..]))
  }

  lemma {:induction false} NestedOperationsUndo(rows: Tasks, ops: seq<Deletion>)
    requires Sound(rows) && Clean(rows) && Fresh(rows, ops)
    ensures forall d :: d in ops ==> d.task in DeleteAll(rows, ops)
    ensures RestoreAll(DeleteAll(rows, ops), ops) == rows
  {
    if ops != [] {
      var d := ops[0];
      var after := Delete(rows, d.task, d.stamp, d.actor);
      TrashedKeeps(rows, Subtree(rows, d.task), d.stamp, d.actor);
      NestedOperationsUndo(after, ops[1..]);
      RestoreUndoesDelete(rows, d.task, d.stamp, d.actor);
    }
  }
}
