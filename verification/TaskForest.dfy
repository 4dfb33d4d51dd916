/** The `parent_task` pointers of the task table, seen as a function from a task to its parent,
    and the subtrees that the trash operations walk. */
module TaskForest {
  import opened Basics

  /** A task name; the empty string is the absent name. */
  type TaskId = string

  const NO_TASK: TaskId := ""

  type ProjectId = string
  type Instant = int
  type User = string

  datatype LinkKind = Blocks | IsBlockedBy | Relation(name: string)

  datatype Link = Link(kind: LinkKind, task: TaskId, depType: string, lagDays: int, taskProject: ProjectId)

  datatype Task = Task(
    project: ProjectId,
    parent: TaskId,
    deleted: bool,
    deletedOn: Option<Instant>,
    deletedBy: Option<User>,
    links: seq<Link>)

  type Tasks = map<TaskId, Task>

  type Parents = map<TaskId, TaskId>

  function ParentsOf(tasks: Tasks): Parents {
    map t | t in tasks :: tasks[t].parent
  }

  function Up(up: Parents, t: TaskId): TaskId {
    if t != NO_TASK && t in up then up[t] else NO_TASK
  }

  /** The name reached after `n` steps towards the root. */
  function Climb(up: Parents, t: TaskId, n: nat): TaskId
    decreases n
  {
    if n == 0 then t else Climb(up, Up(up, t), n - 1)
  }

  /** The chain of ancestors of `t` is finite. */
  ghost predicate Ends(up: Parents, t: TaskId) {
    exists n: nat :: Climb(up, t, n) == NO_TASK
  }

  /** No chain of parents runs in a circle. */
  ghost predicate Forest(up: Parents) {
    forall t :: t in up ==> Ends(up, t)
  }

  lemma {:induction false} ClimbAdds(up: Parents, t: TaskId, m: nat, n: nat)
    ensures Climb(up, t, m + n) == Climb(up, Climb(up, t, m), n)
    decreases m
  {
    if m > 0 {
      ClimbAdds(up, Up(up, t), m - 1, n);
    }
  }

  lemma {:induction false} NothingAbove(up: Parents, n: nat)
    ensures Climb(up, NO_TASK, n) == NO_TASK
  {
    if n > 0 {
      NothingAbove(up, n - 1);
    }
  }

  /** A chain that ends never comes back to its start. */
  lemma {:induction false} NoReturn(up: Parents, t: TaskId, n: nat, m: nat)
    requires t != NO_TASK && n > 0
    requires Climb(up, t, m) == NO_TASK
    ensures Climb(up, t, n) != t
  {
    if m <= n {
      ClimbAdds(up, t, m, n - m);
      NothingAbove(up, n - m);
    } else if Climb(up, t, n) == t {
      ClimbAdds(up, t, n, m - n);
      NoReturn(up, t, n, m - n);
    }
  }

  lemma ForestHasNoCycle(up: Parents, t: TaskId, n: nat)
    requires Forest(up) && t in up && t != NO_TASK && n > 0
    ensures Climb(up, t, n) != t
  {
    var m: nat :| Climb(up, t, m) == NO_TASK;
    NoReturn(up, t, n, m);
  }

  /** Giving one task a new parent keeps the forest when the new parent's chain ends without
      meeting that task. */
  lemma Reparent(up: Parents, t: TaskId, p: TaskId, k: nat)
    requires Forest(up) && t != NO_TASK
    requires Climb(up, p, k) == NO_TASK
    requires forall j: nat :: j < k ==> Climb(up, p, j) != t
    ensures Forest(up[t := p])
  {
    var moved := up[t := p];
    SameAbove(up, moved, t, p, k);
    assert Climb(moved, t, k + 1) == NO_TASK;
    forall s | s in moved ensures Ends(moved, s) {
      if s != t {
        var n: nat :| Climb(up, s, n) == NO_TASK;
        EndsAfterMove(up, moved, t, k + 1, s, n);
      }
    }
  }

  lemma {:induction false} SameAbove(up: Parents, moved: Parents, t: TaskId, p: TaskId, k: nat)
    requires t != NO_TASK && forall s :: s != t ==> Up(moved, s) == Up(up, s)
    requires forall j: nat :: j < k ==> Climb(up, p, j) != t
    ensures Climb(moved, p, k) == Climb(up, p, k)
    decreases k
  {
    if k > 0 {
      assert Climb(up, p, 0) != t;
      forall j: nat | j < k - 1 ensures Climb(up, Up(up, p), j) != t {
        assert Climb(up, p, j + 1) != t;
      }
      SameAbove(up, moved, t, Up(up, p), k - 1);
    }
  }

  lemma {:induction false} EndsAfterMove(up: Parents, moved: Parents, t: TaskId, k: nat, s: TaskId, n: nat)
    requires t != NO_TASK && forall x :: x != t ==> Up(moved, x) == Up(up, x)
    requires Climb(moved, t, k) == NO_TASK && Climb(up, s, n) == NO_TASK
    ensures Ends(moved, s)
    decreases n
  {
    if s == t {
      assert Climb(moved, s, k) == NO_TASK;
    } else if n == 0 {
      assert Climb(moved, s, 0) == NO_TASK;
    } else {
      EndsAfterMove(up, moved, t, k, Up(up, s), n - 1);
      var m: nat :| Climb(moved, Up(up, s), m) == NO_TASK;
      assert Climb(moved, s, m + 1) == NO_TASK;
    }
  }

  /** `s` lies under `t`, and every task on the way up to it, both ends included, is in `keep`. */
  predicate Path(up: Parents, keep: set<TaskId>, s: TaskId, t: TaskId, n: nat)
    decreases n
  {
    s in keep && if n == 0 then s == t else Path(up, keep, Up(up, s), t, n - 1)
  }

  ghost predicate Hangs(up: Parents, keep: set<TaskId>, s: TaskId, t: TaskId) {
    exists n: nat :: Path(up, keep, s, t, n)
  }

  /** The part of the subtree of `t` that hangs from it inside `keep`. */
  ghost function Tree(up: Parents, keep: set<TaskId>, t: TaskId): set<TaskId> {
    set s | s in keep && Hangs(up, keep, s, t)
  }

  function Children(up: Parents, keep: set<TaskId>, t: TaskId): set<TaskId> {
    set s | s in keep && s in up && up[s] == t
  }

  /** Everything under `t`: what bounds the recursion. */
  ghost function Below(up: Parents, t: TaskId): set<TaskId> {
    set s | s in up && exists n: nat :: Climb(up, s, n) == t
  }

  lemma {:induction false} PathClimbs(up: Parents, keep: set<TaskId>, s: TaskId, t: TaskId, n: nat)
    requires Path(up, keep, s, t, n)
    ensures Climb(up, s, n) == t && t in keep
    decreases n
  {
    if n > 0 {
      PathClimbs(up, keep, Up(up, s), t, n - 1);
    }
  }

  /** Only names of tasks are in question. */
  predicate Named(up: Parents, keep: set<TaskId>) {
    NO_TASK !in keep && forall t :: t in keep ==> t in up
  }

  lemma ChildIsLower(up: Parents, keep: set<TaskId>, t: TaskId, c: TaskId)
    requires Forest(up) && Named(up, keep) && t in keep && c in Children(up, keep, t)
    ensures Below(up, c) < Below(up, t)
  {
    forall s | s in Below(up, c) ensures s in Below(up, t) {
      var n: nat :| Climb(up, s, n) == c;
      ClimbAdds(up, s, n, 1);
      assert Climb(up, c, 1) == Climb(up, t, 0) == t;
      assert Climb(up, s, n + 1) == t;
    }
    assert Climb(up, t, 0) == t;
    assert t in Below(up, t);
    if t in Below(up, c) {
      var n: nat :| Climb(up, t, n) == c;
      ClimbAdds(up, t, n, 1);
      assert Climb(up, c, 1) == Climb(up, t, 0) == t;
      ForestHasNoCycle(up, t, n + 1);
    }
  }

  /** A tree is its root and the trees of the root's children, */
  lemma TreeSplits(up: Parents, keep: set<TaskId>, t: TaskId, s: TaskId)
    requires Named(up, keep) && t in keep
    ensures s in Tree(up, keep, t) <==> s == t || exists c :: c in Children(up, keep, t) && s in Tree(up, keep, c)
  {
    assert Path(up, keep, t, t, 0);
    if s in Tree(up, keep, t) && s != t {
      var n: nat :| Path(up, keep, s, t, n);
      SplitPath(up, keep, s, t, n);
    }
    if c :| c in Children(up, keep, t) && s in Tree(up, keep, c) {
      var n: nat :| Path(up, keep, s, c, n);
      ExtendPath(up, keep, s, c, t, n);
    }
  }

  lemma {:induction false} SplitPath(up: Parents, keep: set<TaskId>, s: TaskId, t: TaskId, n: nat)
    requires Named(up, keep) && Path(up, keep, s, t, n) && s != t
    ensures exists c :: c in Children(up, keep, t) && s in Tree(up, keep, c)
    decreases n
  {
    var p := Up(up, s);
    if p == t {
      assert Path(up, keep, s, s, 0);
      assert s in Children(up, keep, t) && s in Tree(up, keep, s);
    } else {
      SplitPath(up, keep, p, t, n - 1);
      var c :| c in Children(up, keep, t) && p in Tree(up, keep, c);
      var m: nat :| Path(up, keep, p, c, m);
      assert Path(up, keep, s, c, m + 1);
      assert s in Tree(up, keep, c);
    }
  }

  lemma {:induction false} ExtendPath(up: Parents, keep: set<TaskId>, s: TaskId, c: TaskId, t: TaskId, n: nat)
    requires Named(up, keep) && t in keep && c in Children(up, keep, t) && Path(up, keep, s, c, n)
    ensures Path(up, keep, s, t, n + 1)
    decreases n
  {
    if n == 0 {
      assert Path(up, keep, t, t, 0);
    } else {
      ExtendPath(up, keep, Up(up, s), c, t, n - 1);
    }
  }

  /** the root is in none of them, */
  lemma RootIsApart(up: Parents, keep: set<TaskId>, t: TaskId, c: TaskId)
    requires Forest(up) && Named(up, keep) && t in keep && c in Children(up, keep, t)
    ensures t !in Tree(up, keep, c)
  {
    if t in Tree(up, keep, c) {
      var n: nat :| Path(up, keep, t, c, n);
      PathClimbs(up, keep, t, c, n);
      ClimbAdds(up, t, n, 1);
      assert Climb(up, c, 1) == Climb(up, t, 0) == t;
      ForestHasNoCycle(up, t, n + 1);
    }
  }

  /** and two of them share no task. */
  lemma SiblingsAreApart(up: Parents, keep: set<TaskId>, t: TaskId, c: TaskId, d: TaskId, s: TaskId)
    requires Forest(up) && Named(up, keep) && t in keep && c != d
    requires c in Children(up, keep, t) && d in Children(up, keep, t)
    ensures !(s in Tree(up, keep, c) && s in Tree(up, keep, d))
  {
    if s in Tree(up, keep, c) && s in Tree(up, keep, d) {
      var m: nat :| Path(up, keep, s, c, m);
      var n: nat :| Path(up, keep, s, d, n);
      PathClimbs(up, keep, s, c, m);
      PathClimbs(up, keep, s, d, n);
      if m <= n {
        Between(up, keep, t, c, d, s, m, n);
      } else {
        Between(up, keep, t, d, c, s, n, m);
      }
    }
  }

  lemma Between(up: Parents, keep: set<TaskId>, t: TaskId, c: TaskId, d: TaskId, s: TaskId, m: nat, n: nat)
    requires Forest(up) && Named(up, keep) && t in keep && c != d && m <= n
    requires c in Children(up, keep, t) && d in Children(up, keep, t)
    requires Climb(up, s, m) == c
    ensures Climb(up, s, n) != d
  {
    ClimbAdds(up, s, m, n - m);
    if m < n {
      ForestHasNoCycle(up, t, n - m);
      ClimbAdds(up, t, n - m - 1, 1);
      assert Climb(up, c, n - m) == Climb(up, t, n - m - 1);
      assert Climb(up, d, 1) == Climb(up, t, 0) == t;
    }
  }

  lemma NothingHangsOutside(up: Parents, keep: set<TaskId>, t: TaskId)
    requires t !in keep
    ensures Tree(up, keep, t) == {}
  {
    if s :| s in Tree(up, keep, t) {
      var n: nat :| Path(up, keep, s, t, n);
      PathClimbs(up, keep, s, t, n);
    }
  }

  /** The tree of `c` is the same inside a smaller `keep` that still holds it. */
  lemma TreeStands(up: Parents, keep: set<TaskId>, less: set<TaskId>, c: TaskId)
    requires less <= keep && Tree(up, keep, c) <= less
    ensures Tree(up, less, c) == Tree(up, keep, c)
  {
    forall s | s in Tree(up, keep, c) ensures s in Tree(up, less, c) {
      var n: nat :| Path(up, keep, s, c, n);
      PathStands(up, keep, less, s, c, n);
    }
    forall s | s in Tree(up, less, c) ensures s in Tree(up, keep, c) {
      var n: nat :| Path(up, less, s, c, n);
      PathGrows(up, less, keep, s, c, n);
    }
  }

  lemma {:induction false} PathStands(up: Parents, keep: set<TaskId>, less: set<TaskId>, s: TaskId, c: TaskId, n: nat)
    requires Tree(up, keep, c) <= less && Path(up, keep, s, c, n)
    ensures Path(up, less, s, c, n)
    decreases n
  {
    assert s in Tree(up, keep, c);
    if n > 0 {
      PathStands(up, keep, less, Up(up, s), c, n - 1);
    }
  }

  lemma {:induction false} PathGrows(up: Parents, less: set<TaskId>, keep: set<TaskId>, s: TaskId, c: TaskId, n: nat)
    requires less <= keep && Path(up, less, s, c, n)
    ensures Path(up, keep, s, c, n)
    decreases n
  {
    if n > 0 {
      PathGrows(up, less, keep, Up(up, s), c, n - 1);
    }
  }

  /** `q` lists exactly the members of `s`, none of them twice. */
  ghost predicate Lists(q: seq<TaskId>, s: set<TaskId>) {
    && (forall x :: x in q <==> x in s)
    && (forall i, j :: 0 <= i < j < |q| ==> q[i] != q[j])
  }

  lemma ListsJoin(p: seq<TaskId>, s: set<TaskId>, q: seq<TaskId>, t: set<TaskId>)
    requires Lists(p, s) && Lists(q, t) && s !! t
    ensures Lists(p + q, s + t)
  {
    var r := p + q;
    forall i, j | 0 <= i < j < |r| ensures r[i] != r[j] {
      if i < |p| <= j {
        assert r[i] in p && r[j] in q;
      }
    }
  }

  /** The names a query answers, in whatever order the database gives them. */
  method Pluck(names: set<TaskId>) returns (q: seq<TaskId>)
    ensures Lists(q, names)
  {
    q := [];
    var rest := names;
    while rest != {}
      invariant rest <= names && Lists(q, names - rest)
      decreases rest
    {
      var x :| x in rest;
      ListsJoin(q, names - rest, [x], {x});
      assert names - (rest - {x}) == (names - rest) + {x};
      q := q + [x];
      rest := rest - {x};
    }
    assert names - rest == names;
  }
}
