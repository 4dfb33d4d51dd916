/** The row locks of the two billing guards. Every lock a guard waits for is taken in
    ascending (table, name) order; the claim rows of the timesheet guard are taken without
    waiting, or not at all. */
module LockOrder {
  import opened Names

  type WorkerId = nat

  /** The tables in their lock order. */
  datatype Table = ExpenseClaim | ExpenseDetail | ExpenseType | SalesInvoice | TimesheetDetail

  datatype Row = Row(table: Table, name: nat)

  function Rank(t: Table): nat {
    match t
    case ExpenseClaim => 0
    case ExpenseDetail => 1
    case ExpenseType => 2
    case SalesInvoice => 3
    case TimesheetDetail => 4
  }

  predicate Before(a: Row, b: Row) {
    Rank(a.table) < Rank(b.table) || (a.table == b.table && a.name < b.name)
  }

  // ----- the plans of the guards -----

  function RowsOf(t: Table, names: seq<nat>): seq<Row> {
    seq(|names|, i requires 0 <= i < |names| => Row(t, names[i]))
  }

  predicate InOrder(plan: seq<Row>) {
    forall i, j :: 0 <= i < j < |plan| ==> Before(plan[i], plan[j])
  }

  /** Source rows in name order; the claim rows come after, without waiting. */
  function TimesheetPlan(details: seq<nat>): seq<Row> {
    RowsOf(TimesheetDetail, SortedNames(details))
  }

  /** Parents, then details, then types, then the referenced invoices. */
  function ExpensePlan(parents: seq<nat>, details: seq<nat>, types: seq<nat>, invoices: seq<nat>): seq<Row> {
    RowsOf(ExpenseClaim, SortedNames(parents)) + RowsOf(ExpenseDetail, SortedNames(details))
    + RowsOf(ExpenseType, SortedNames(types)) + RowsOf(SalesInvoice, SortedNames(invoices))
  }

  lemma RowsInOrder(t: Table, names: seq<nat>)
    requires Ascending(names)
    ensures InOrder(RowsOf(t, names))
  {
  }

  lemma InOrderJoins(p: seq<Row>, q: seq<Row>)
    requires InOrder(p) && InOrder(q)
    requires forall r, s :: r in p && s in q ==> Rank(r.table) < Rank(s.table)
    ensures InOrder(p + q)
  {
    forall i, j | 0 <= i < j < |p + q| ensures Before((p + q)[i], (p + q)[j]) {
      if i < |p| <= j {
        assert p[i] in p && q[j - |p|] in q;
      }
    }
  }

  lemma ExpensePlanIsInOrder(a: seq<Row>, b: seq<Row>, c: seq<Row>, d: seq<Row>)
    requires InOrder(a) && InOrder(b) && InOrder(c) && InOrder(d)
    requires (forall r :: r in a ==> r.table == ExpenseClaim) && (forall r :: r in b ==> r.table == ExpenseDetail)
    requires (forall r :: r in c ==> r.table == ExpenseType) && (forall r :: r in d ==> r.table == SalesInvoice)
    ensures InOrder(a + b + c + d)
  {
    InOrderJoins(a, b);
    InOrderJoins(a + b, c);
    InOrderJoins(a + b + c, d);
  }

  /** Both guards wait for their rows in (table, name) order. */
  lemma PlansAreInOrder(parents: seq<nat>, details: seq<nat>, types: seq<nat>, invoices: seq<nat>)
    ensures InOrder(TimesheetPlan(details))
    ensures InOrder(ExpensePlan(parents, details, types, invoices))
  {
    RowsInOrder(TimesheetDetail, SortedNames(details));
    RowsInOrder(ExpenseClaim, SortedNames(parents));
    RowsInOrder(ExpenseDetail, SortedNames(details));
    RowsInOrder(ExpenseType, SortedNames(types));
    RowsInOrder(SalesInvoice, SortedNames(invoices));
    ExpensePlanIsInOrder(RowsOf(ExpenseClaim, SortedNames(parents)), RowsOf(ExpenseDetail, SortedNames(details)),
      RowsOf(ExpenseType, SortedNames(types)), RowsOf(SalesInvoice, SortedNames(invoices)));
  }

  // ----- guards running side by side -----

  /** A guard that has taken the first `taken` rows of its plan and, once the plan is done,
      the rows of `extra` without waiting. */
  datatype Guard = Guard(plan: seq<Row>, taken: nat, extra: set<Row>)

  datatype State = State(locks: map<Row, WorkerId>, guards: map<WorkerId, Guard>)

  datatype Action =
    | Start(w: WorkerId, parents: seq<nat>, details: seq<nat>, types: seq<nat>, invoices: seq<nat>, timesheet: bool)
    | Take(w: WorkerId)
    | TakeNoWait(w: WorkerId, rows: set<Row>)
    | End(w: WorkerId)

  function Init(): State {
    State(map[], map[])
  }

  predicate Wants(s: State, w: WorkerId) {
    w in s.guards && s.guards[w].taken < |s.guards[w].plan|
  }

  function Wanted(s: State, w: WorkerId): Row
    requires Wants(s, w)
  {
    s.guards[w].plan[s.guards[w].taken]
  }

  predicate FreeFor(s: State, w: WorkerId, r: Row) {
    r in s.locks ==> s.locks[r] == w
  }

  function Apply(s: State, a: Action): State {
    match a
    case Start(w, parents, details, types, invoices, timesheet) =>
      if w in s.guards then s else
      var plan := if timesheet then TimesheetPlan(details) else ExpensePlan(parents, details, types, invoices);
      s.(guards := s.guards[w := Guard(plan, 0, {})])
    case Take(w) =>
      if !Wants(s, w) || !FreeFor(s, w, Wanted(s, w)) then s else
      State(s.locks[Wanted(s, w) := w], s.guards[w := s.guards[w].(taken := s.guards[w].taken + 1)])
    case TakeNoWait(w, rows) =>
      if w !in s.guards || Wants(s, w) then s
      else if forall r :: r in rows ==> FreeFor(s, w, r) then
        State(s.locks + map r | r in rows :: w, s.guards[w := s.guards[w].(extra := s.guards[w].extra + rows)])
      else Gone(s, w)
    case End(w) => Gone(s, w)
  }

  /** Commit or rollback: every lock of `w` is released. */
  function Gone(s: State, w: WorkerId): State {
    State(map r | r in s.locks && s.locks[r] != w :: s.locks[r], s.guards - {w})
  }

  function Execute(schedule: seq<Action>): State {
    if schedule == [] then Init()
    else Apply(Execute(schedule[..|schedule| - 1]), schedule[|schedule| - 1])
  }

  ghost predicate HeldBy(s: State, r: Row, w: WorkerId) {
    && w in s.guards
    && ((exists k :: 0 <= k < s.guards[w].taken <= |s.guards[w].plan| && s.guards[w].plan[k] == r)
        || (r in s.guards[w].extra && !Wants(s, w)))
  }

  ghost predicate Inv(s: State) {
    && (forall w :: w in s.guards ==> InOrder(s.guards[w].plan) && s.guards[w].taken <= |s.guards[w].plan|)
    && (forall r :: r in s.locks ==> HeldBy(s, r, s.locks[r]))
  }

  lemma StartKeeps(s: State, a: Action)
    requires Inv(s) && a.Start?
    ensures Inv(Apply(s, a))
  {
    PlansAreInOrder(a.parents, a.details, a.types, a.invoices);
    hide TimesheetPlan, ExpensePlan, InOrder;
    var t := Apply(s, a);
    forall r | r in t.locks ensures HeldBy(t, r, t.locks[r]) {
      assert HeldBy(s, r, s.locks[r]);
    }
  }

  lemma TakeKeeps(s: State, a: Action)
    requires Inv(s) && a.Take?
    ensures Inv(Apply(s, a))
  {
    hide InOrder;
    var t := Apply(s, a);
    forall r | r in t.locks ensures HeldBy(t, r, t.locks[r]) {
      if r in s.locks && s.locks[r] == t.locks[r] {
        assert HeldBy(s, r, s.locks[r]);
      } else {
        assert t.guards[a.w].plan[s.guards[a.w].taken] == r;
      }
    }
  }

  lemma TakeNoWaitKeeps(s: State, a: Action)
    requires Inv(s) && a.TakeNoWait?
    ensures Inv(Apply(s, a))
  {
    hide InOrder;
    var t := Apply(s, a);
    forall r | r in t.locks ensures HeldBy(t, r, t.locks[r]) {
      if r in s.locks && s.locks[r] == t.locks[r] {
        assert HeldBy(s, r, s.locks[r]);
      }
    }
  }

  lemma EndKeeps(s: State, a: Action)
    requires Inv(s) && a.End?
    ensures Inv(Apply(s, a))
  {
    hide InOrder;
    var t := Apply(s, a);
    forall r | r in t.locks ensures HeldBy(t, r, t.locks[r]) {
      assert HeldBy(s, r, s.locks[r]);
    }
  }

  lemma InvStep(s: State, a: Action)
    requires Inv(s)
    ensures Inv(Apply(s, a))
  {
    hide Inv, Apply;
    match a
    case Start(_, _, _, _, _, _) => StartKeeps(s, a);
    case Take(_) => TakeKeeps(s, a);
    case TakeNoWait(_, _) => TakeNoWaitKeeps(s, a);
    case End(_) => EndKeeps(s, a);
  }

  lemma {:induction false} InvAlways(schedule: seq<Action>)
    ensures Inv(Execute(schedule))
  {
    if schedule != [] {
      var n := |schedule| - 1;
      InvAlways(schedule[..n]);
      InvStep(Execute(schedule[..n]), schedule[n]);
    }
  }

  /** Every row a guard has taken, waiting or not, is locked for it. */
  ghost predicate TakenIsHeld(s: State) {
    forall w :: w in s.guards ==>
      && (forall k :: 0 <= k < s.guards[w].taken && k < |s.guards[w].plan| ==> Has(s, w, s.guards[w].plan[k]))
      && (forall r :: r in s.guards[w].extra ==> Has(s, w, r))
  }

  predicate Has(s: State, w: WorkerId, r: Row) {
    r in s.locks && s.locks[r] == w
  }

  /** A step takes no lock from anybody else. */
  lemma NoLockIsStolen(s: State, a: Action, w: WorkerId, r: Row)
    requires Has(s, w, r) && w != a.w
    ensures Has(Apply(s, a), w, r)
  {
  }

  lemma MoverHasItsRows(s: State, a: Action)
    requires TakenIsHeld(s) && a.w in Apply(s, a).guards
    ensures var g := Apply(s, a).guards[a.w];
      && (forall k :: 0 <= k < g.taken && k < |g.plan| ==> Has(Apply(s, a), a.w, g.plan[k]))
      && (forall r :: r in g.extra ==> Has(Apply(s, a), a.w, r))
  {
    hide TimesheetPlan, ExpensePlan;
  }

  lemma {:induction false} TakenAlwaysHeld(schedule: seq<Action>)
    ensures TakenIsHeld(Execute(schedule))
  {
    if schedule != [] {
      var s, a := Execute(schedule[..|schedule| - 1]), schedule[|schedule| - 1];
      TakenAlwaysHeld(schedule[..|schedule| - 1]);
      forall w | w in Apply(s, a).guards
        ensures forall k :: 0 <= k < Apply(s, a).guards[w].taken && k < |Apply(s, a).guards[w].plan| ==>
          Has(Apply(s, a), w, Apply(s, a).guards[w].plan[k])
        ensures forall r :: r in Apply(s, a).guards[w].extra ==> Has(Apply(s, a), w, r)
      {
        if w == a.w {
          MoverHasItsRows(s, a);
        } else {
          OtherGuardStays(s, a, w);
          forall r | Has(s, w, r) ensures Has(Apply(s, a), w, r) {
            NoLockIsStolen(s, a, w, r);
          }
        }
      }
    }
  }

  lemma OtherGuardStays(s: State, a: Action, w: WorkerId)
    requires w != a.w && w in Apply(s, a).guards
    ensures w in s.guards && Apply(s, a).guards[w] == s.guards[w]
  {
  }

  /** Two guards never have the same row, whether they waited for it or not. */
  lemma GuardsExcludeEachOther(schedule: seq<Action>, w: WorkerId, v: WorkerId, r: Row)
    requires var guards := Execute(schedule).guards;
      && w in guards && v in guards && guards[w].taken <= |guards[w].plan| && guards[v].taken <= |guards[v].plan|
      && (r in guards[w].plan[..guards[w].taken] || r in guards[w].extra)
      && (r in guards[v].plan[..guards[v].taken] || r in guards[v].extra)
    ensures w == v && r in Execute(schedule).locks && Execute(schedule).locks[r] == w
  {
    TakenAlwaysHeld(schedule);
    var s := Execute(schedule);
    assert Has(s, w, r) && Has(s, v, r);
  }

  /** What a guard waits for: the timesheet guard its details, the expense guard the parents it
      discovered, its details, their types and the invoices they point at. */
  lemma StartMeans(s: State, a: Action, r: Row)
    requires a.Start? && a.w !in s.guards
    ensures var t := Apply(s, a);
      && a.w in t.guards && t.locks == s.locks && t.guards[a.w].taken == 0 && t.guards[a.w].extra == {}
      && (r in t.guards[a.w].plan <==>
            if a.timesheet then r.table == TimesheetDetail && r.name in a.details
            else match r.table
                 case ExpenseClaim => r.name in a.parents
                 case ExpenseDetail => r.name in a.details
                 case ExpenseType => r.name in a.types
                 case SalesInvoice => r.name in a.invoices
                 case TimesheetDetail => false)
  {
    RowsOfMeans(TimesheetDetail, a.details, r);
    RowsOfMeans(ExpenseClaim, a.parents, r);
    RowsOfMeans(ExpenseDetail, a.details, r);
    RowsOfMeans(ExpenseType, a.types, r);
    RowsOfMeans(SalesInvoice, a.invoices, r);
    hide RowsOf;
  }

  /** Rows taken without waiting: all of them if nobody else has one, and otherwise the guard is
      refused and gives everything back. */
  lemma NoWaitMeans(s: State, w: WorkerId, rows: set<Row>, r: Row)
    requires w in s.guards && !Wants(s, w) && r in rows
    ensures var t := Apply(s, TakeNoWait(w, rows));
      if exists q :: q in rows && q in s.locks && s.locks[q] != w then
        w !in t.guards && forall q :: q in t.locks ==> t.locks[q] != w
      else w in t.guards && r in t.guards[w].extra && r in t.locks && t.locks[r] == w
  {
  }

  lemma RowsOfMeans(t: Table, names: seq<nat>, r: Row)
    ensures r in RowsOf(t, SortedNames(names)) <==> r.table == t && r.name in names
  {
    var rows := RowsOf(t, SortedNames(names));
    if r.table == t && r.name in names {
      var k :| 0 <= k < |SortedNames(names)| && SortedNames(names)[k] == r.name;
      assert rows[k] == r;
    }
  }

  /** Every guard of the set waits for a row that another guard of the set holds. */
  ghost predicate Deadlocked(s: State, stuck: set<WorkerId>) {
    && stuck != {}
    && (forall w :: w in stuck ==> Wants(s, w) && Wanted(s, w) in s.locks)
    && (forall w :: w in stuck ==> s.locks[Wanted(s, w)] != w && s.locks[Wanted(s, w)] in stuck)
  }

  /** Some guard of the set wants a row that no other one's wanted row comes after. */
  lemma {:induction false} LastWanted(s: State, ws: set<WorkerId>) returns (w: WorkerId)
    requires ws != {} && forall v :: v in ws ==> Wants(s, v)
    ensures w in ws && forall v :: v in ws ==> !Before(Wanted(s, w), Wanted(s, v))
  {
    w :| w in ws;
    if exists u :: u in ws && u != w {
      var u0 :| u0 in ws && u0 != w;
      assert u0 in ws - {w};
      var v := LastWanted(s, ws - {w});
      if !Before(Wanted(s, w), Wanted(s, v)) {
        forall u | u in ws ensures !Before(Wanted(s, w), Wanted(s, u)) {
          if u != w {
            assert u in ws - {w};
          }
        }
      } else {
        forall u | u in ws ensures !Before(Wanted(s, v), Wanted(s, u)) {
          if u != w {
            assert u in ws - {w};
          }
        }
        w := v;
      }
    }
  }

  /** A guard that still waits wants a row after every row it holds. */
  lemma HolderWantsLater(s: State, r: Row)
    requires Inv(s) && r in s.locks && Wants(s, s.locks[r])
    ensures Before(r, Wanted(s, s.locks[r]))
  {
    var g := s.guards[s.locks[r]];
    assert HeldBy(s, r, s.locks[r]);
    var k :| 0 <= k < g.taken <= |g.plan| && g.plan[k] == r;
    assert Before(g.plan[k], g.plan[g.taken]);
  }

  /** No schedule of timesheet and expense guards ever deadlocks. */
  lemma NoDeadlock(schedule: seq<Action>, stuck: set<WorkerId>)
    ensures !Deadlocked(Execute(schedule), stuck)
  {
    var s := Execute(schedule);
    InvAlways(schedule);
    if Deadlocked(s, stuck) {
      var w := LastWanted(s, stuck);
      HolderWantsLater(s, Wanted(s, w));
    }
  }

  /** So while any guard runs, one of them can take its next row or has all its rows. */
  lemma SomeGuardCanMove(schedule: seq<Action>) returns (w: WorkerId)
    requires Execute(schedule).guards.Keys != {}
    ensures var s := Execute(schedule); w in s.guards && (Wants(s, w) ==> FreeFor(s, w, Wanted(s, w)))
  {
    var s := Execute(schedule);
    InvAlways(schedule);
    if done :| done in s.guards && !Wants(s, done) {
      w := done;
    } else {
      w := LastWanted(s, s.guards.Keys);
      var r := Wanted(s, w);
      if r in s.locks {
        assert HeldBy(s, r, s.locks[r]);
        HolderWantsLater(s, r);
      }
    }
  }
}
