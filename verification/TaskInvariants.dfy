/** What a task save checks: the parent chain and the dependency links. */
module TaskInvariants {
  import opened Basics
  import opened TaskForest

  /** A document about to be saved. Names are given before validation, so `name` is not empty. */
  datatype Document = Document(name: TaskId, task: Task)

  datatype Failure =
    | OwnParent | ParentMissing | ForeignParent | HierarchyCycle | HierarchyTooDeep
    | DuplicateLink | TargetRequired | SelfLink | TargetMissing | DependencyCycle
    | OtherCheck

  // ---- The hierarchy ----

  function Stored(tasks: Tasks, doc: Document): Option<Task> {
    if doc.name in tasks then Some(tasks[doc.name]) else None
  }

  predicate ParentChanged(stored: Option<Task>, doc: Document) {
    stored.None? || stored.value.project != doc.task.project || stored.value.parent != doc.task.parent
  }

  const MAX_STEPS: nat := 1000

  /** Among the first `k` ancestors of `p` there is an end, and none of them is `name`. */
  ghost predicate ClearAbove(tasks: Tasks, p: TaskId, name: TaskId, k: nat) {
    var up := ParentsOf(tasks);
    Climb(up, p, k) == NO_TASK && forall j: nat :: j < k ==> Climb(up, p, j) != name
  }

  /** An ancestor is the task itself, or appears twice. */
  ghost predicate CycleAbove(tasks: Tasks, p: TaskId, name: TaskId) {
    var up := ParentsOf(tasks);
    exists k: nat :: 0 < k <= 1000 && Climb(up, p, k) != NO_TASK &&
      (Climb(up, p, k) == name || exists j: nat :: j < k && Climb(up, p, j) == Climb(up, p, k))
  }

  lemma ClearMeansNoCycle(tasks: Tasks, p: TaskId, name: TaskId, k: nat)
    requires ClearAbove(tasks, p, name, k)
    ensures !CycleAbove(tasks, p, name)
  {
    var up := ParentsOf(tasks);
    forall n: nat, j: nat | Climb(up, p, n) != NO_TASK && j < n ensures n < k && Climb(up, p, j) != Climb(up, p, n) {
      if k <= n {
        ClimbAdds(up, p, k, n - k);
        NothingAbove(up, n - k);
      }
      if Climb(up, p, j) == Climb(up, p, n) {
        ClimbAdds(up, p, j, n - j);
        ClimbAdds(up, p, j, k - j);
        NoReturn(up, Climb(up, p, j), n - j, k - j);
      }
    }
    forall n: nat | 0 < n && Climb(up, p, n) != NO_TASK ensures Climb(up, p, n) != name {
      assert Climb(up, p, 0) != Climb(up, p, n) && n < k;
    }
  }

  // ---- The dependency graph ----

  predicate Edge(tasks: Tasks, a: TaskId, b: TaskId) {
    a in tasks && exists l :: l in tasks[a].links && l.kind == Blocks && l.task == b
  }

  predicate Walk(tasks: Tasks, p: seq<TaskId>) {
    p != [] && forall i :: 0 <= i < |p| - 1 ==> Edge(tasks, p[i], p[i + 1])
  }

  ghost predicate WalkFrom(tasks: Tasks, p: seq<TaskId>, a: TaskId, b: TaskId) {
    Walk(tasks, p) && p[0] == a && p[|p| - 1] == b
  }

  ghost predicate Reaches(tasks: Tasks, a: TaskId, b: TaskId) {
    exists p :: WalkFrom(tasks, p, a, b)
  }

  /** No stored `blocks` row closes a chain of stored `blocks` rows. */
  ghost predicate Acyclic(tasks: Tasks) {
    forall a, b :: Edge(tasks, a, b) ==> !Reaches(tasks, b, a)
  }

  function Signature(l: Link): (LinkKind, TaskId, string, int) {
    (l.kind, l.task, if l.depType == "" then "FS" else l.depType, l.lagDays)
  }

  predicate Grandfathered(stored: Option<Task>, doc: Document, l: Link) {
    stored.Some? && stored.value.project == doc.task.project &&
    exists m :: m in stored.value.links && Signature(m) == Signature(l)
  }

  /** `l` is among the rows but for the spelling of its type, "" or "FS", and its snapshot. */
  ghost predicate KeptRow(rows: seq<Link>, l: Link) {
    exists m :: m in rows && m.kind == l.kind && m.task == l.task && m.lagDays == l.lagDays
      && (m.depType == l.depType || (m.depType == "" && l.depType == "FS") || (m.depType == "FS" && l.depType == ""))
  }

  lemma KeptRowIsSignature(rows: seq<Link>, l: Link)
    ensures KeptRow(rows, l) <==> exists m :: m in rows && Signature(m) == Signature(l)
  {
    if m :| m in rows && Signature(m) == Signature(l) {
      assert m.kind == Signature(m).0 && m.task == Signature(m).1 && m.lagDays == Signature(m).3;
    }
  }

  predicate SamePair(l: Link, m: Link) {
    l.kind == m.kind && l.task == m.task
  }

  predicate Repeated(links: seq<Link>, i: nat)
    requires i < |links|
  {
    exists j :: 0 <= j < i && SamePair(links[j], links[i])
  }

  ghost predicate ClosesChain(tasks: Tasks, name: TaskId, l: Link) {
    match l.kind
    case Blocks => Reaches(tasks, l.task, name)
    case IsBlockedBy => Reaches(tasks, name, l.task)
    case Relation(_) => false
  }

  /** What is wrong with row `i`, if anything. */
  ghost function RowFailure(tasks: Tasks, doc: Document, i: nat): Option<Failure>
    requires i < |doc.task.links|
  {
    var l := doc.task.links[i];
    if Repeated(doc.task.links, i) then Some(DuplicateLink)
    else if Grandfathered(Stored(tasks, doc), doc, l) then None
    else if l.task == NO_TASK then Some(TargetRequired)
    else if l.task == doc.name then Some(SelfLink)
    else if l.task !in tasks || tasks[l.task].deleted then Some(TargetMissing)
    else if ClosesChain(tasks, doc.name, l) then Some(DependencyCycle)
    else None
  }

  /** The row as the save stores it: a checked row takes a fresh snapshot of its target. */
  function Snapshot(tasks: Tasks, doc: Document, l: Link): Link {
    if Grandfathered(Stored(tasks, doc), doc, l) || l.task !in tasks then l
    else l.(taskProject := tasks[l.task].project)
  }

  /** What is wrong with the parent, if anything. */
  ghost function ParentFailure(tasks: Tasks, doc: Document): Option<Failure> {
    var p := doc.task.parent;
    if !ParentChanged(Stored(tasks, doc), doc) || p == NO_TASK then None
    else if p == doc.name then Some(OwnParent)
    else if p !in tasks || tasks[p].deleted then Some(ParentMissing)
    else if tasks[p].project != doc.task.project then Some(ForeignParent)
    else AncestorFailure(tasks, p, doc.name)
  }

  /** The chain above the parent must end within the bound, without the task itself. */
  ghost function AncestorFailure(tasks: Tasks, p: TaskId, name: TaskId): Option<Failure> {
    if exists k: nat :: k <= MAX_STEPS && ClearAbove(tasks, p, name, k) then None
    else if CycleAbove(tasks, p, name) then Some(HierarchyCycle)
    else Some(HierarchyTooDeep)
  }

  ghost predicate ParentAccepted(tasks: Tasks, doc: Document) {
    ParentFailure(tasks, doc) == None
  }

  ghost predicate LinksAccepted(tasks: Tasks, doc: Document) {
    forall i :: 0 <= i < |doc.task.links| ==> RowFailure(tasks, doc, i) == None
  }

  /** Row `i` fails, and no row before it. */
  ghost predicate FailsFirst(tasks: Tasks, doc: Document, i: nat, failure: Failure)
    requires i < |doc.task.links|
  {
    && RowFailure(tasks, doc, i) == Some(failure)
    && (forall j: nat :: j < i ==> RowFailure(tasks, doc, j) == None)
  }

  ghost predicate Accepted(tasks: Tasks, doc: Document) {
    ParentAccepted(tasks, doc) && LinksAccepted(tasks, doc)
  }

  function Saved(tasks: Tasks, doc: Document): Tasks {
    var links := seq(|doc.task.links|, i requires 0 <= i < |doc.task.links| => Snapshot(tasks, doc, doc.task.links[i]));
    tasks[doc.name := doc.task.(links := links)]
  }

  class TaskTable {
    var tasks: Tasks

    /** The parent check of a save. */
    method ValidateParent(doc: Document) returns (failure: Option<Failure>)
      requires NO_TASK !in tasks && doc.name != NO_TASK
      ensures failure == ParentFailure(tasks, doc)
      ensures var p, name := doc.task.parent, doc.name;
        if p == "" || (name in tasks && tasks[name].project == doc.task.project && tasks[name].parent == p) then failure == None
        else if p == name then failure == Some(OwnParent)
        else if p !in tasks || tasks[p].deleted then failure == Some(ParentMissing)
        else if tasks[p].project != doc.task.project then failure == Some(ForeignParent)
        else
          var up := ParentsOf(tasks);
          && failure in {None, Some(HierarchyCycle), Some(HierarchyTooDeep)}
          && (failure == None <==> exists k: nat :: k <= 1000 && ClearAbove(tasks, p, name, k))
          && (failure == Some(HierarchyCycle) <==> CycleAbove(tasks, p, name))
    {
      var stored := Stored(tasks, doc);
      if !ParentChanged(stored, doc) || doc.task.parent == NO_TASK {
        return None;
      }
      var p := doc.task.parent;
      if p == doc.name {
        return Some(OwnParent);
      }
      if p !in tasks || tasks[p].deleted {
        return Some(ParentMissing);
      }
      if tasks[p].project != doc.task.project {
        return Some(ForeignParent);
      }
      failure := ClimbAncestors(p, doc.name);
    }

    method ClimbAncestors(p: TaskId, name: TaskId) returns (failure: Option<Failure>)
      requires NO_TASK !in tasks && p in tasks && p != name && name != NO_TASK
      ensures failure == AncestorFailure(tasks, p, name)
      ensures failure in {None, Some(HierarchyCycle), Some(HierarchyTooDeep)}
      ensures failure == None <==> exists k: nat :: k <= 1000 && ClearAbove(tasks, p, name, k)
      ensures failure == Some(HierarchyCycle) <==> CycleAbove(tasks, p, name)
    {
      ghost var up := ParentsOf(tasks);
      var ancestor := tasks[p].parent;
      var seen := {p};
      assert Climb(up, p, 0) == p;
      for n := 0 to MAX_STEPS
        invariant ancestor == Climb(up, p, n + 1)
        invariant forall j: nat :: j <= n ==> Climb(up, p, j) in seen
        invariant forall t :: t in seen ==> t == p || exists j: nat :: 0 < j <= n && t == Climb(up, p, j)
        invariant forall j: nat :: j <= n ==> Climb(up, p, j) != NO_TASK && Climb(up, p, j) != name
        invariant forall i: nat, j: nat :: i < j <= n ==> Climb(up, p, i) != Climb(up, p, j)
      {
        if ancestor == NO_TASK {
          assert ClearAbove(tasks, p, name, n + 1);
          ClearMeansNoCycle(tasks, p, name, n + 1);
          return None;
        }
        if ancestor == name || ancestor in seen {
          assert CycleAbove(tasks, p, name);
          forall k: nat | k <= MAX_STEPS ensures !ClearAbove(tasks, p, name, k) {
            if ClearAbove(tasks, p, name, k) {
              ClearMeansNoCycle(tasks, p, name, k);
            }
          }
          return Some(HierarchyCycle);
        }
        ClimbAdds(up, p, n + 1, 1);
        seen := seen + {ancestor};
        ancestor := if ancestor in tasks then tasks[ancestor].parent else NO_TASK;
      }
      return Some(HierarchyTooDeep);
    }

    /** The stored `blocks` rows grouped by their source. */
    method LoadAdjacency() returns (adjacency: map<TaskId, set<TaskId>>)
      ensures forall a, b :: (a in adjacency && b in adjacency[a]) <==> Edge(tasks, a, b)
    {
      adjacency := map[];
      var rest := tasks.Keys;
      while rest != {}
        invariant rest <= tasks.Keys
        invariant forall a :: a in adjacency ==> a in tasks && a !in rest
        invariant forall a, b :: a !in rest ==> ((a in adjacency && b in adjacency[a]) <==> Edge(tasks, a, b))
        decreases rest
      {
        var a :| a in rest;
        adjacency := adjacency[a := set l | l in tasks[a].links && l.kind == Blocks :: l.task];
        rest := rest - {a};
      }
    }

    /** The search answers reachability exactly, whatever order it explores in. */
    method DependencyReaches(start: TaskId, target: TaskId) returns (found: bool)
      ensures found <==> start != NO_TASK && target != NO_TASK && Reaches(tasks, start, target)
    {
      if start == NO_TASK || target == NO_TASK {
        return false;
      }
      var adjacency := LoadAdjacency();
      ghost var nodes := {start} + set a, b | a in adjacency && b in adjacency[a] :: b;
      var seen: set<TaskId> := {};
      var stack := [start];
      assert WalkFrom(tasks, [start], start, start);
      while stack != []
        invariant seen <= nodes && (forall x :: x in stack ==> x in nodes)
        invariant forall x :: x in stack ==> Reaches(tasks, start, x)
        invariant target !in seen && (start in seen || start in stack)
        invariant forall a, b :: a in seen && Edge(tasks, a, b) ==> b in seen || b in stack
        decreases nodes - seen, |stack|
      {
        var node, rest := stack[|stack| - 1], stack[..|stack| - 1];
        assert stack == rest + [node];
        if node == target {
          return true;
        }
        if node in seen {
          stack := rest;
          continue;
        }
        assert node in stack;
        seen := seen + {node};
        var next := Pluck(if node in adjacency then adjacency[node] else {});
        forall x | x in next ensures Reaches(tasks, start, x) {
          WalkOn(tasks, start, node, x);
        }
        stack := rest + next;
      }
      if Reaches(tasks, start, target) {
        var p :| WalkFrom(tasks, p, start, target);
        ClosedHolds(tasks, seen, p, |p| - 1);
      }
      return false;
    }

    /** One row: the first check it fails, or the row with its snapshot. */
    method ValidateRow(doc: Document, i: nat, seenPairs: set<(LinkKind, TaskId)>) returns (r: Result<Link, Failure>)
      requires i < |doc.task.links| && doc.name != NO_TASK
      requires var l := doc.task.links[i]; (l.kind, l.task) in seenPairs <==> Repeated(doc.task.links, i)
      ensures var problem := RowFailure(tasks, doc, i);
        r == if problem.Some? then Raised(problem.value) else Ok(Snapshot(tasks, doc, doc.task.links[i]))
      ensures var l, name := doc.task.links[i], doc.name;
        if exists j :: 0 <= j < i && doc.task.links[j].kind == l.kind && doc.task.links[j].task == l.task then
          r == Raised(DuplicateLink)
        else if name in tasks && tasks[name].project == doc.task.project && KeptRow(tasks[name].links, l) then r == Ok(l)
        else if l.task == "" then r == Raised(TargetRequired)
        else if l.task == name then r == Raised(SelfLink)
        else if l.task !in tasks || tasks[l.task].deleted then r == Raised(TargetMissing)
        else if (l.kind == Blocks && Reaches(tasks, l.task, name)) || (l.kind == IsBlockedBy && Reaches(tasks, name, l.task)) then
          r == Raised(DependencyCycle)
        else r == Ok(l.(taskProject := tasks[l.task].project))
    {
      var l := doc.task.links[i];
      if doc.name in tasks {
        KeptRowIsSignature(tasks[doc.name].links, l);
      }
      if (l.kind, l.task) in seenPairs {
        return Raised(DuplicateLink);
      }
      if Grandfathered(Stored(tasks, doc), doc, l) {
        return Ok(l);
      }
      if l.task == NO_TASK {
        return Raised(TargetRequired);
      }
      if l.task == doc.name {
        return Raised(SelfLink);
      }
      if l.task !in tasks || tasks[l.task].deleted {
        return Raised(TargetMissing);
      }
      if !l.kind.Relation? {
        var pred, succ := l.task, doc.name;
        if l.kind == Blocks {
          pred, succ := doc.name, l.task;
        }
        var closes := DependencyReaches(succ, pred);
        if closes {
          return Raised(DependencyCycle);
        }
      }
      return Ok(l.(taskProject := tasks[l.task].project));
    }

    /** The link check of a save refuses with the first failing row, or answers every row with
        its snapshot aligned. */
    method ValidateLinks(doc: Document) returns (r: Result<seq<Link>, Failure>)
      requires doc.name != NO_TASK
      ensures r.Ok? <==> LinksAccepted(tasks, doc)
      ensures r.Ok? ==> r.value == Saved(tasks, doc)[doc.name].links
      ensures r.Raised? ==> exists i: nat :: i < |doc.task.links| && FailsFirst(tasks, doc, i, r.error)
    {
      var links := doc.task.links;
      var seenPairs: set<(LinkKind, TaskId)> := {};
      var aligned: seq<Link> := [];
      for i := 0 to |links|
        invariant |aligned| == i
        invariant forall j: nat :: j < i ==> RowFailure(tasks, doc, j) == None && aligned[j] == Snapshot(tasks, doc, links[j])
        invariant forall q :: q in seenPairs <==> exists j :: 0 <= j < i && (links[j].kind, links[j].task) == q
      {
        var row := ValidateRow(doc, i, seenPairs);
        if row.Raised? {
          assert FailsFirst(tasks, doc, i, row.error);
          return Raised(row.error);
        }
        seenPairs := seenPairs + {(links[i].kind, links[i].task)};
        aligned := aligned + [row.value];
      }
      return Ok(aligned);
    }

    /** A save: its checks in their order, then the write. A refused save changes nothing. The
        checks that look at neither hierarchy nor links are `earlier` (authority, assignees,
        type, epic, milestone), `sprint`, and `later` (approver, mentions): whether they refuse. */
    method Save(doc: Document, earlier: bool, sprint: bool, later: bool) returns (failure: Option<Failure>)
      requires NO_TASK !in tasks && doc.name != NO_TASK
      modifies this
      ensures failure.None? <==> Accepted(old(tasks), doc) && !earlier && !sprint && !later
      ensures tasks == if failure.None? then Saved(old(tasks), doc) else old(tasks)
      ensures failure.None? ==>
        && tasks.Keys == old(tasks).Keys + {doc.name} && (forall t :: t in old(tasks) && t != doc.name ==> tasks[t] == old(tasks)[t])
        && tasks[doc.name] == doc.task.(links := tasks[doc.name].links) && |tasks[doc.name].links| == |doc.task.links|
      ensures earlier ==> failure == Some(OtherCheck)
      ensures !earlier && ParentFailure(old(tasks), doc).Some? ==> failure == ParentFailure(old(tasks), doc)
      ensures !earlier && ParentAccepted(old(tasks), doc) && sprint ==> failure == Some(OtherCheck)
      ensures !earlier && ParentAccepted(old(tasks), doc) && !sprint && !LinksAccepted(old(tasks), doc) ==>
        failure.Some? && exists i: nat :: i < |doc.task.links| && FailsFirst(old(tasks), doc, i, failure.value)
      ensures !earlier && Accepted(old(tasks), doc) && later ==> failure == Some(OtherCheck)
    {
      if earlier {
        return Some(OtherCheck);
      }
      failure := ValidateParent(doc);
      if failure.Some? {
        return;
      }
      if sprint {
        return Some(OtherCheck);
      }
      var links := ValidateLinks(doc);
      if links.Raised? {
        return Some(links.error);
      }
      if later {
        return Some(OtherCheck);
      }
      tasks := tasks[doc.name := doc.task.(links := links.value)];
    }
  }

  lemma WalkOn(tasks: Tasks, a: TaskId, b: TaskId, c: TaskId)
    requires Reaches(tasks, a, b) && Edge(tasks, b, c)
    ensures Reaches(tasks, a, c)
  {
    var p :| WalkFrom(tasks, p, a, b);
    assert WalkFrom(tasks, p + [c], a, c);
  }

  /** A set closed under edges holds every walk that starts in it. */
  lemma {:induction false} ClosedHolds(tasks: Tasks, closed: set<TaskId>, p: seq<TaskId>, i: nat)
    requires Walk(tasks, p) && i < |p| && p[0] in closed
    requires forall a, b :: a in closed && Edge(tasks, a, b) ==> b in closed
    ensures p[i] in closed
  {
    if i > 0 {
      ClosedHolds(tasks, closed, p, i - 1);
      assert Edge(tasks, p[i - 1], p[i]);
    }
  }

  lemma SaveKeepsForest(tasks: Tasks, doc: Document)
    requires NO_TASK !in tasks && doc.name != NO_TASK
    requires Forest(ParentsOf(tasks)) && ParentAccepted(tasks, doc)
    ensures Forest(ParentsOf(Saved(tasks, doc)))
  {
    var up, p := ParentsOf(tasks), doc.task.parent;
    assert ParentsOf(Saved(tasks, doc)) == up[doc.name := p];
    if p == NO_TASK {
      assert Climb(up, p, 0) == NO_TASK;
      Reparent(up, doc.name, p, 0);
    } else if ParentChanged(Stored(tasks, doc), doc) {
      var k: nat :| k <= MAX_STEPS && ClearAbove(tasks, p, doc.name, k);
      assert Climb(up, p, k) == NO_TASK;
      Reparent(up, doc.name, p, k);
    } else {
      assert up[doc.name := p] == up;
    }
  }

  ghost predicate SameButFor(one: Tasks, two: Tasks, d: TaskId) {
    forall t :: t != d ==> (t in one <==> t in two) && (t in one ==> one[t].links == two[t].links)
  }

  /** A chain into `d` needs no edge out of `d`: cut it where it first meets `d`. */
  lemma {:induction false} CutAtSource(one: Tasks, two: Tasks, d: TaskId, p: seq<TaskId>)
    requires SameButFor(one, two, d) && Walk(one, p) && p[|p| - 1] == d
    ensures Reaches(two, p[0], d)
  {
    if p[0] == d {
      assert WalkFrom(two, [d], d, d);
    } else {
      forall i | 0 <= i < |p[1..]| - 1 ensures Edge(one, p[1..][i], p[1..][i + 1]) {
        assert Edge(one, p[i + 1], p[i + 2]);
      }
      CutAtSource(one, two, d, p[1..]);
      var q :| WalkFrom(two, q, p[1], d);
      assert Edge(one, p[0], p[1]);
      assert Edge(two, p[0], p[1]);
      assert WalkFrom(two, [p[0]] + q, p[0], d);
    }
  }

  /** A cycle through `d`, read from `d` on. */
  lemma Rotate(tasks: Tasks, p: seq<TaskId>, i: nat)
    requires Walk(tasks, p) && i < |p| && Edge(tasks, p[|p| - 1], p[0])
    ensures var q := p[i + 1..] + p[..i + 1];
      Walk(tasks, q) && q[|q| - 1] == p[i] && Edge(tasks, p[i], q[0])
  {
    var q := p[i + 1..] + p[..i + 1];
    forall j | 0 <= j < |q| - 1 ensures Edge(tasks, q[j], q[j + 1]) {
      var a := if j < |p| - i - 1 then j + i + 1 else j - (|p| - i - 1);
      assert q[j] == p[a];
      if a < |p| - 1 {
        assert q[j + 1] == p[a + 1] && Edge(tasks, p[a], p[a + 1]);
      } else {
        assert q[j + 1] == p[0];
      }
    }
    if i < |p| - 1 {
      assert Edge(tasks, p[i], p[i + 1]);
    }
  }

  lemma SavedEdges(tasks: Tasks, doc: Document, b: TaskId)
    ensures Edge(Saved(tasks, doc), doc.name, b) <==> exists l :: l in doc.task.links && l.kind == Blocks && l.task == b
    ensures SameButFor(tasks, Saved(tasks, doc), doc.name)
  {
    var after := Saved(tasks, doc)[doc.name].links;
    if l :| l in doc.task.links && l.kind == Blocks && l.task == b {
      var i :| 0 <= i < |doc.task.links| && doc.task.links[i] == l;
      assert after[i] in after;
    }
  }

  /** All new edges of one save leave the saved task, so checking each row against the graph
      stored before is exact: the saved graph is free of cycles just when no `blocks` row of
      the document points at a task that already reached it. */
  lemma AcyclicAfterSave(tasks: Tasks, doc: Document)
    requires Acyclic(tasks)
    ensures Acyclic(Saved(tasks, doc))
       <==> forall l :: l in doc.task.links && l.kind == Blocks ==> !Reaches(tasks, l.task, doc.name)
  {
    var after, d := Saved(tasks, doc), doc.name;
    SavedEdges(tasks, doc, d);
    if l :| l in doc.task.links && l.kind == Blocks && Reaches(tasks, l.task, d) {
      var p :| WalkFrom(tasks, p, l.task, d);
      CutAtSource(tasks, after, d, p);
      SavedEdges(tasks, doc, l.task);
    } else {
      forall a, b | Edge(after, a, b) ensures !Reaches(after, b, a) {
        if p :| WalkFrom(after, p, b, a) {
          CycleMeansReach(tasks, doc, p);
        }
      }
    }
  }

  lemma CycleMeansReach(tasks: Tasks, doc: Document, p: seq<TaskId>)
    requires Acyclic(tasks) && Walk(Saved(tasks, doc), p) && Edge(Saved(tasks, doc), p[|p| - 1], p[0])
    ensures exists l :: l in doc.task.links && l.kind == Blocks && Reaches(tasks, l.task, doc.name)
  {
    var after, d := Saved(tasks, doc), doc.name;
    SavedEdges(tasks, doc, d);
    if i :| 0 <= i < |p| && p[i] == d {
      Rotate(after, p, i);
      var q := p[i + 1..] + p[..i + 1];
      CutAtSource(after, tasks, d, q);
      SavedEdges(tasks, doc, q[0]);
    } else {
      forall j | 0 <= j < |p| - 1 ensures Edge(tasks, p[j], p[j + 1]) {
        assert Edge(after, p[j], p[j + 1]) && p[j] != d;
      }
      assert Edge(tasks, p[|p| - 1], p[0]);
      assert WalkFrom(tasks, p, p[0], p[|p| - 1]);
    }
  }

  lemma SaveKeepsAcyclic(tasks: Tasks, doc: Document)
    requires Acyclic(tasks) && LinksAccepted(tasks, doc)
    ensures Acyclic(Saved(tasks, doc))
  {
    forall l | l in doc.task.links && l.kind == Blocks ensures !Reaches(tasks, l.task, doc.name) {
      var i :| 0 <= i < |doc.task.links| && doc.task.links[i] == l;
      assert RowFailure(tasks, doc, i) == None;
      if Grandfathered(Stored(tasks, doc), doc, l) {
        assert Edge(tasks, doc.name, l.task);
      }
    }
    AcyclicAfterSave(tasks, doc);
  }

  /** The table after a sequence of attempted saves. */
  ghost function Run(tasks: Tasks, docs: seq<Document>): Tasks {
    if docs == [] then tasks
    else
      var earlier := Run(tasks, docs[..|docs| - 1]);
      var doc := docs[|docs| - 1];
      if Accepted(earlier, doc) then Saved(earlier, doc) else earlier
  }

  lemma {:induction false} SavesKeepBothGraphs(tasks: Tasks, docs: seq<Document>)
    requires NO_TASK !in tasks && forall d :: d in docs ==> d.name != NO_TASK
    requires Forest(ParentsOf(tasks)) && Acyclic(tasks)
    ensures NO_TASK !in Run(tasks, docs)
    ensures Forest(ParentsOf(Run(tasks, docs))) && Acyclic(Run(tasks, docs))
  {
    if docs != [] {
      var earlier, doc := Run(tasks, docs[..|docs| - 1]), docs[|docs| - 1];
      SavesKeepBothGraphs(tasks, docs[..|docs| - 1]);
      if Accepted(earlier, doc) {
        SaveKeepsForest(earlier, doc);
        SaveKeepsAcyclic(earlier, doc);
      }
    }
  }
}
