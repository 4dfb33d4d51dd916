/** The order that `blocks` and 'is blocked by' rows put on the tasks together. */
module TaskOrder {
  import opened Basics
  import opened TaskForest
  import opened TaskInvariants

  /** `a` must come before `b`, whichever of the two tasks carries the row. */
  predicate Precedes(tasks: Tasks, a: TaskId, b: TaskId) {
    Edge(tasks, a, b) ||
    (b in tasks && exists l :: l in tasks[b].links && l.kind == IsBlockedBy && l.task == a)
  }

  predicate Sequence(tasks: Tasks, p: seq<TaskId>) {
    p != [] && forall i :: 0 <= i < |p| - 1 ==> Precedes(tasks, p[i], p[i + 1])
  }

  /** The two kinds of rows together order the tasks without a circle. */
  ghost predicate Consistent(tasks: Tasks) {
    forall p :: Sequence(tasks, p) ==> !Precedes(tasks, p[|p| - 1], p[0])
  }

  /** What the saved task will come before: its own `blocks` rows, and rows of others naming it. */
  predicate LeadsTo(tasks: Tasks, doc: Document, x: TaskId) {
    (exists l :: l in doc.task.links && l.kind == Blocks && l.task == x) ||
    (x != doc.name && x in tasks && exists l :: l in tasks[x].links && l.kind == IsBlockedBy && l.task == doc.name)
  }

  /** What will come before the saved task. */
  predicate FollowsFrom(tasks: Tasks, doc: Document, x: TaskId) {
    (exists l :: l in doc.task.links && l.kind == IsBlockedBy && l.task == x) || (x != doc.name && Edge(tasks, x, doc.name))
  }

  /** A row of the document names the task itself. */
  predicate NamesItself(doc: Document) {
    exists l :: l in doc.task.links && !l.kind.Relation? && l.task == doc.name
  }

  /** A stored sequence that leaves the saved task and comes back to it without passing it. */
  ghost predicate ComesBack(tasks: Tasks, doc: Document, p: seq<TaskId>) {
    Sequence(tasks, p) && doc.name !in p && LeadsTo(tasks, doc, p[0]) && FollowsFrom(tasks, doc, p[|p| - 1])
  }

  lemma SavedRow(tasks: Tasks, doc: Document, kind: LinkKind, x: TaskId)
    ensures (exists l :: l in Saved(tasks, doc)[doc.name].links && l.kind == kind && l.task == x)
       <==> (exists l :: l in doc.task.links && l.kind == kind && l.task == x)
  {
    var after := Saved(tasks, doc)[doc.name].links;
    if l :| l in doc.task.links && l.kind == kind && l.task == x {
      var i :| 0 <= i < |doc.task.links| && doc.task.links[i] == l;
      assert after[i] in after;
    }
    if l :| l in after && l.kind == kind && l.task == x {
      var i :| 0 <= i < |after| && after[i] == l;
      assert doc.task.links[i] in doc.task.links;
    }
  }

  lemma SavedPrecedes(tasks: Tasks, doc: Document, x: TaskId)
    ensures var after, d := Saved(tasks, doc), doc.name;
      && (x != d ==> (Precedes(after, d, x) <==> LeadsTo(tasks, doc, x)))
      && (x != d ==> (Precedes(after, x, d) <==> FollowsFrom(tasks, doc, x)))
      && (Precedes(after, d, d) <==> NamesItself(doc))
  {
    SavedRow(tasks, doc, Blocks, x);
    SavedRow(tasks, doc, IsBlockedBy, x);
    SavedRow(tasks, doc, Blocks, doc.name);
    SavedRow(tasks, doc, IsBlockedBy, doc.name);
  }

  lemma OthersPrecede(tasks: Tasks, doc: Document, a: TaskId, b: TaskId)
    requires a != doc.name && b != doc.name
    ensures Precedes(Saved(tasks, doc), a, b) <==> Precedes(tasks, a, b)
  {
  }

  lemma SequenceOfOthers(tasks: Tasks, doc: Document, p: seq<TaskId>)
    requires doc.name !in p
    ensures Sequence(Saved(tasks, doc), p) <==> Sequence(tasks, p)
  {
    forall i | 0 <= i < |p| - 1 ensures Precedes(Saved(tasks, doc), p[i], p[i + 1]) <==> Precedes(tasks, p[i], p[i + 1]) {
      OthersPrecede(tasks, doc, p[i], p[i + 1]);
    }
  }

  /** A circle through `p[i]`, read from the task after it. */
  lemma RotateSequence(tasks: Tasks, p: seq<TaskId>, i: nat)
    requires Sequence(tasks, p) && i < |p| && Precedes(tasks, p[|p| - 1], p[0])
    ensures var q := p[i + 1..] + p[..i + 1];
      Sequence(tasks, q) && q[|q| - 1] == p[i] && Precedes(tasks, p[i], q[0])
  {
    var q := p[i + 1..] + p[..i + 1];
    forall j | 0 <= j < |q| - 1 ensures Precedes(tasks, q[j], q[j + 1]) {
      var a := if j < |p| - i - 1 then j + i + 1 else j - (|p| - i - 1);
      assert q[j] == p[a];
      if a < |p| - 1 {
        assert q[j + 1] == p[a + 1] && Precedes(tasks, p[a], p[a + 1]);
      } else {
        assert q[j + 1] == p[0];
      }
    }
    if i < |p| - 1 {
      assert Precedes(tasks, p[i], p[i + 1]);
    }
  }

  lemma {:induction false} FirstVisit(q: seq<TaskId>, d: TaskId) returns (j: nat)
    requires d in q
    ensures j < |q| && q[j] == d && d !in q[..j]
  {
    if q[0] == d {
      j := 0;
    } else {
      assert q == [q[0]] + q[1..];
      var k := FirstVisit(q[1..], d);
      j := k + 1;
      assert q[..j] == [q[0]] + q[1..][..k];
    }
  }

  lemma FrontOfSequence(tasks: Tasks, q: seq<TaskId>, j: nat)
    requires Sequence(tasks, q) && 0 < j <= |q|
    ensures Sequence(tasks, q[..j])
  {
    forall k | 0 <= k < j - 1 ensures Precedes(tasks, q[..j][k], q[..j][k + 1]) {
      assert Precedes(tasks, q[k], q[k + 1]);
    }
  }

  /** Followed from the task to its first return, a circle leaves it and comes back. */
  lemma ReturnComesBack(tasks: Tasks, doc: Document, q: seq<TaskId>) returns (r: seq<TaskId>)
    requires Sequence(Saved(tasks, doc), q) && q[|q| - 1] == doc.name && Precedes(Saved(tasks, doc), doc.name, q[0])
    ensures NamesItself(doc) || ComesBack(tasks, doc, r)
  {
    var after, d := Saved(tasks, doc), doc.name;
    var j := FirstVisit(q, d);
    r := q[..j];
    SavedPrecedes(tasks, doc, q[0]);
    if j > 0 {
      assert Precedes(after, q[j - 1], q[j]);
      assert r[j - 1] in r && r[0] in r;
      SavedPrecedes(tasks, doc, q[j - 1]);
      FrontOfSequence(after, q, j);
      SequenceOfOthers(tasks, doc, r);
    }
  }

  /** A sequence that does not pass the saved task closes no circle. */
  lemma NoCircleBeside(tasks: Tasks, doc: Document, p: seq<TaskId>)
    requires Consistent(tasks) && Sequence(Saved(tasks, doc), p) && doc.name !in p
    ensures !Precedes(Saved(tasks, doc), p[|p| - 1], p[0])
  {
    SequenceOfOthers(tasks, doc, p);
    assert p[0] in p && p[|p| - 1] in p;
    OthersPrecede(tasks, doc, p[|p| - 1], p[0]);
  }

  lemma ComingBackIsACircle(tasks: Tasks, doc: Document, p: seq<TaskId>)
    requires ComesBack(tasks, doc, p)
    ensures !Consistent(Saved(tasks, doc))
  {
    var after, d := Saved(tasks, doc), doc.name;
    SequenceOfOthers(tasks, doc, p);
    assert p[0] in p && p[|p| - 1] in p;
    SavedPrecedes(tasks, doc, p[0]);
    SavedPrecedes(tasks, doc, p[|p| - 1]);
    var q := p + [d];
    forall i | 0 <= i < |q| - 1 ensures Precedes(after, q[i], q[i + 1]) {
      if i < |p| - 1 {
        assert Precedes(after, p[i], p[i + 1]);
      }
    }
    assert Sequence(after, q) && Precedes(after, q[|q| - 1], q[0]);
  }

  /** The search follows `blocks` rows only, so it does not settle the order of both kinds of
      rows together. That order stays free of circles exactly when no row of the document names
      the task itself and no stored sequence, of rows of either kind, leads from something the
      task will come before to something that will come before it. */
  lemma ConsistentAfterSave(tasks: Tasks, doc: Document)
    requires Consistent(tasks)
    ensures Consistent(Saved(tasks, doc)) <==> !NamesItself(doc) && forall p :: !ComesBack(tasks, doc, p)
  {
    var after, d := Saved(tasks, doc), doc.name;
    SavedPrecedes(tasks, doc, d);
    if NamesItself(doc) {
      assert Sequence(after, [d]) && Precedes(after, [d][|[d]| - 1], [d][0]);
    } else if p :| ComesBack(tasks, doc, p) {
      ComingBackIsACircle(tasks, doc, p);
    } else {
      forall p | Sequence(after, p) ensures !Precedes(after, p[|p| - 1], p[0]) {
        if d !in p {
          NoCircleBeside(tasks, doc, p);
        } else if Precedes(after, p[|p| - 1], p[0]) {
          var i :| 0 <= i < |p| && p[i] == d;
          RotateSequence(after, p, i);
          var r := ReturnComesBack(tasks, doc, p[i + 1..] + p[..i + 1]);
        }
      }
    }
  }

  lemma NoRowsNoReach(tasks: Tasks, a: TaskId, b: TaskId)
    requires a != b && forall x, y :: !Edge(tasks, x, y)
    ensures !Reaches(tasks, a, b)
  {
    forall p | |p| > 1 ensures !Walk(tasks, p) {
      assert !Edge(tasks, p[0], p[1]);
    }
  }

  lemma RootsAreAForest(tasks: Tasks)
    requires forall t :: t in tasks ==> tasks[t].parent == NO_TASK
    ensures Forest(ParentsOf(tasks))
  {
    forall a | a in ParentsOf(tasks) ensures Ends(ParentsOf(tasks), a) {
      assert Climb(ParentsOf(tasks), a, 1) == Climb(ParentsOf(tasks), NO_TASK, 0) == NO_TASK;
    }
  }

  /** One accepted save whose own rows of the two kinds contradict each other. */
  lemma MixedRowsCanContradict() returns (tasks: Tasks, doc: Document)
    ensures Acyclic(tasks) && Forest(ParentsOf(tasks)) && Accepted(tasks, doc)
    ensures Precedes(Saved(tasks, doc), "a", "b") && Precedes(Saved(tasks, doc), "b", "a")
  {
    var idle := Task("p", NO_TASK, false, None, None, []);
    tasks := map["a" := idle, "b" := idle];
    var links := [Link(Blocks, "b", "FS", 0, "p"), Link(IsBlockedBy, "b", "FS", 0, "p")];
    doc := Document("a", Task("p", NO_TASK, false, None, None, links));
    RootsAreAForest(tasks);
    NoRowsNoReach(tasks, "a", "b");
    NoRowsNoReach(tasks, "b", "a");
    assert !Repeated(links, 0) && !Repeated(links, 1);
    forall i | 0 <= i < |links| ensures RowFailure(tasks, doc, i) == None {
      assert i == 0 || i == 1;
    }
    var after := Saved(tasks, doc);
    assert after["a"].links[0] in after["a"].links && after["a"].links[1] in after["a"].links;
  }

  /** Rows of one kind are enough: two tasks that are each saved as blocked by the other. */
  lemma BlockedByRowsCanContradict() returns (tasks: Tasks, doc: Document)
    ensures Acyclic(tasks) && Forest(ParentsOf(tasks)) && Accepted(tasks, doc)
    ensures forall l :: l in doc.task.links ==> l.kind == IsBlockedBy
    ensures Precedes(Saved(tasks, doc), "a", "b") && Precedes(Saved(tasks, doc), "b", "a")
  {
    var waits := Link(IsBlockedBy, "a", "FS", 0, "p");
    tasks := map["a" := Task("p", NO_TASK, false, None, None, []), "b" := Task("p", NO_TASK, false, None, None, [waits])];
    doc := Document("a", Task("p", NO_TASK, false, None, None, [Link(IsBlockedBy, "b", "FS", 0, "p")]));
    RootsAreAForest(tasks);
    NoRowsNoReach(tasks, "a", "b");
    assert !Repeated(doc.task.links, 0);
    var after := Saved(tasks, doc);
    assert after["a"].links[0] in after["a"].links;
    assert waits in after["b"].links;
  }
}
