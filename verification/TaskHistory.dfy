/** Saves, deletions and restores of tasks in any order. */
module TaskHistory {
  import opened Basics
  import opened TaskForest
  import opened TaskInvariants
  import L = TaskLifecycle

  datatype Op =
    | Save(doc: Document)
    | Delete(task: TaskId, stamp: Instant, actor: User)
    | Restore(task: TaskId)

  /** The table after one attempted operation; a refused or pointless one changes nothing. */
  ghost function Perform(tasks: Tasks, op: Op): Tasks {
    match op
    case Save(doc) => if Accepted(tasks, doc) then Saved(tasks, doc) else tasks
    case Delete(t, stamp, actor) => L.Delete(tasks, t, stamp, actor)
    case Restore(t) => if t in tasks then L.Restore(tasks, t) else tasks
  }

  /** A restore after a deletion puts the table back, unless an older deletion reused the stamp
      under it. */
  lemma RestoreAfterDelete(tasks: Tasks, t: TaskId, stamp: Instant, actor: User)
    requires L.Sound(tasks) && L.Clean(tasks) && t in L.Live(tasks)
    ensures Perform(Perform(tasks, Delete(t, stamp, actor)), Restore(t)) == tasks
       <==> forall c :: c in L.Reuses(tasks, stamp) ==> tasks[c].parent !in L.Subtree(tasks, t)
  {
    L.RestoreUndoesDelete(tasks, t, stamp, actor);
  }

  /** A save writes the document's own row, links aligned, exactly when its checks accept it. */
  lemma SaveMeans(tasks: Tasks, doc: Document)
    ensures var after := Perform(tasks, Save(doc));
      if Accepted(tasks, doc) then
        && after.Keys == tasks.Keys + {doc.name} && (forall t :: t in tasks && t != doc.name ==> after[t] == tasks[t])
        && after[doc.name] == doc.task.(links := after[doc.name].links)
        && |after[doc.name].links| == |doc.task.links|
        && forall k :: 0 <= k < |doc.task.links| ==> Signature(after[doc.name].links[k]) == Signature(doc.task.links[k])
      else after == tasks
  {
  }

  ghost function PerformAll(tasks: Tasks, ops: seq<Op>): Tasks {
    if ops == [] then tasks else Perform(PerformAll(tasks, ops[..|ops| - 1]), ops[|ops| - 1])
  }

  /** What the recursions of trash and restore rely on, and what the link check keeps. */
  ghost predicate Healthy(tasks: Tasks) {
    L.Sound(tasks) && Acyclic(tasks)
  }

  lemma SameLinksSameGraph(tasks: Tasks, after: Tasks)
    requires after.Keys == tasks.Keys && forall t :: t in tasks ==> after[t].links == tasks[t].links
    requires Acyclic(tasks)
    ensures Acyclic(after)
  {
    forall a, b | Edge(after, a, b) ensures !Reaches(after, b, a) {
      assert Edge(tasks, a, b);
      if p :| WalkFrom(after, p, b, a) {
        forall i | 0 <= i < |p| - 1 ensures Edge(tasks, p[i], p[i + 1]) {
          assert Edge(after, p[i], p[i + 1]);
        }
        assert WalkFrom(tasks, p, b, a);
      }
    }
  }

  lemma PerformKeepsHealth(tasks: Tasks, op: Op)
    requires Healthy(tasks) && (op.Save? ==> op.doc.name != NO_TASK)
    ensures Healthy(Perform(tasks, op))
  {
    var after := Perform(tasks, op);
    match op
    case Save(doc) =>
      if Accepted(tasks, doc) {
        SaveKeepsForest(tasks, doc);
        SaveKeepsAcyclic(tasks, doc);
      }
    case Delete(t, stamp, actor) =>
      L.TrashedKeeps(tasks, L.Subtree(tasks, t), stamp, actor);
      SameLinksSameGraph(tasks, after);
    case Restore(t) =>
      if t in tasks {
        L.RestoredKeeps(tasks, L.Cascade(tasks, t, tasks[t].deletedOn), None);
        SameLinksSameGraph(tasks, after);
      }
  }

  /** Any sequence of saves, deletions and restores keeps the hierarchy a forest, which the
      trash and restore recursions need to end, and the blocks graph free of circles. */
  lemma {:induction false} HistoryKeepsHealth(tasks: Tasks, ops: seq<Op>)
    requires Healthy(tasks) && forall op :: op in ops && op.Save? ==> op.doc.name != NO_TASK
    ensures Healthy(PerformAll(tasks, ops))
  {
    if ops != [] {
      assert ops[|ops| - 1] in ops;
      HistoryKeepsHealth(tasks, ops[..|ops| - 1]);
      PerformKeepsHealth(PerformAll(tasks, ops[..|ops| - 1]), ops[|ops| - 1]);
    }
  }
}
