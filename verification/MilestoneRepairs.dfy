/** The budget under bulk repairs from any snapshot, however old: it can be exceeded only after
    an edit that raises what a milestone would reserve. */
module MilestoneRepairs {
  import opened Basics
  import opened MilestoneBilling
  import opened MilestoneProtocol

  // ----- what every commit keeps -----

  /** Of a row that points at a live invoice only activity is known: its status may be stale. */
  ghost predicate RowSafe(b: Books, m: MilestoneId)
    requires m < |b.milestones|
  {
    var row := b.milestones[m];
    && PointerOk(b, m) && row.percent >= 0.0
    && (row.invoice.Some? && LiveInvoice(b.invoices, row.invoice.value) ==> Active(row))
  }

  ghost predicate Safe(b: Books) {
    LineageOk(b.invoices) && WithinBudget(b.milestones) && forall m :: 0 <= m < |b.milestones| ==> RowSafe(b, m)
  }

  /** Were both active, `b` would reserve no more than `a`, and of the same project. */
  predicate NotRaised(a: Milestone, b: Milestone) {
    && b.project == a.project
    && (b.billing == PercentOfBudget ==> a.billing == PercentOfBudget && b.percent <= a.percent)
  }

  /** The youngest ancestor of invoice `i`, itself included, among the first `n` invoices. */
  ghost function Entry(invoices: seq<Invoice>, n: nat, i: InvoiceId): Option<InvoiceId>
    requires i < |invoices| && Younger(invoices)
    decreases i
  {
    if i < n then Some(i)
    else if invoices[i].amendedFrom.None? then None
    else Entry(invoices, n, invoices[i].amendedFrom.value)
  }

  /** If the ancestor that the snapshot knows of what `m` points at is live there, `m` pointed
      at it already then. */
  ghost predicate Traced(snap: Books, b: Books, m: MilestoneId)
    requires Younger(b.invoices) && m < |b.milestones| && PointerOk(b, m)
  {
    b.milestones[m].invoice.Some? ==>
      var e := Entry(b.invoices, |snap.invoices|, b.milestones[m].invoice.value);
      e.Some? && LiveInvoice(snap.invoices, e.value) ==> PointsAt(snap, m, e.value)
  }

  ghost predicate Since(snap: Books, b: Books)
    requires Safe(b)
  {
    && Safe(snap) && InvoicesGrew(snap.invoices, b.invoices) && |snap.milestones| == |b.milestones|
    && forall m :: 0 <= m < |b.milestones| ==>
         RowSafe(b, m) && NotRaised(snap.milestones[m], b.milestones[m]) && Traced(snap, b, m)
  }

  lemma {:induction false} EntryStays(a: seq<Invoice>, b: seq<Invoice>, n: nat, i: InvoiceId)
    requires i < |a| && Younger(a) && Younger(b) && InvoicesGrew(a, b)
    ensures Entry(a, n, i) == Entry(b, n, i)
    decreases i
  {
    if i >= n && a[i].amendedFrom.Some? {
      EntryStays(a, b, n, a[i].amendedFrom.value);
    }
  }

  /** One commit leaves a pointer alone or clears it, moves it to a new invoice that amends
      nothing or the old one, or steps back to what the old one amended. */
  ghost predicate PointerSteps(b: Books, c: Books, m: MilestoneId)
    requires m < |b.milestones| && m < |c.milestones|
  {
    var i, j := b.milestones[m].invoice, c.milestones[m].invoice;
    || j.None? || j == i
    || (j.value == |b.invoices| < |c.invoices| && (c.invoices[j.value].amendedFrom.None? || c.invoices[j.value].amendedFrom == i))
    || (i.Some? && i.value < |b.invoices| && b.invoices[i.value].amendedFrom == j)
  }

  lemma TracedOn(snap: Books, b: Books, c: Books, m: MilestoneId)
    requires Safe(b) && Since(snap, b) && LineageOk(c.invoices) && InvoicesGrew(b.invoices, c.invoices)
    requires m < |b.milestones| && m < |c.milestones| && PointerOk(c, m) && PointerSteps(b, c, m)
    ensures Traced(snap, c, m)
  {
    assert RowSafe(b, m) && Traced(snap, b, m);
    var i := b.milestones[m].invoice;
    if i.Some? {
      EntryStays(b.invoices, c.invoices, |snap.invoices|, i.value);
      if b.invoices[i.value].amendedFrom.Some? {
        EntryStays(b.invoices, c.invoices, |snap.invoices|, b.invoices[i.value].amendedFrom.value);
      }
    }
  }

  // ----- what a request relies on -----

  ghost predicate EffectSafe(db: Database, w: WorkerId, x: Request, e: Effect) {
    var b := db.books;
    && EffectFits(b, e)
    && match e
       case Creates(from, claim) =>
         && (from.Some? ==> from.value < |b.invoices| && !LiveInvoice(b.invoices, from.value))
         && (claim.Some? ==>
               && Holds(db, w, MilestoneRow(claim.value)) && Holds(db, w, ProjectRow(b.milestones[claim.value].project))
               && HasCapacity(b.milestones, claim.value)
               && (from.Some? ==> b.milestones[claim.value].invoice == from))
       case Moves(i, to, claim) =>
         && Holds(db, w, InvoiceRow(i)) && Legal(b.invoices[i].docstatus, to)
         && (claim.Some? ==> Holds(db, w, MilestoneRow(claim.value)) && PointsAt(b, claim.value, i))
       case Rewrites(m, row) =>
         && Holds(db, w, MilestoneRow(m)) && row.percent >= 0.0
         && (row.invoice == b.milestones[m].invoice || row.invoice.None?)
         && (Active(row) ==> Active(b.milestones[m]))
         && (row.invoice.Some? && LiveInvoice(b.invoices, row.invoice.value) ==> Active(row))
         && (!x.call.EditCall? ==> NotRaised(b.milestones[m], row))
       case Repairs(seen) => EffectOk(db, w, e) && seen == x.snap.invoices
  }

  ghost predicate RequestSafe(db: Database, w: WorkerId, x: Request)
    requires Safe(db.books)
  {
    && Since(x.snap, db.books)
    && (x.call.AmendCall? && !x.pc.Opened? && !x.pc.Ready? && !x.pc.Committed? && !x.pc.Aborted? ==>
          AmendsDead(db, x.call.predecessor))
    && match x.pc
       case Opened => true
       case HasInvoice => InvoiceHeld(db, w, x)
       case Found(claim) => x.call.AmendCall? || InvoiceHeld(db, w, x)
       case HasProject(m, p) => (x.call.GenerateCall? || x.call.AmendCall?) && Holds(db, w, ProjectRow(p))
       case HasMilestone(m) =>
         && m < |db.books.milestones| && Holds(db, w, MilestoneRow(m))
         && (x.call.GenerateCall? || x.call.AmendCall? ==> Holds(db, w, ProjectRow(db.books.milestones[m].project)))
         && (x.call.DocCall? ==> InvoiceHeld(db, w, x))
       case Repairing(taken) => x.call.RepairCall? && forall k :: 0 <= k < taken ==> Holds(db, w, MilestoneRow(k))
       case Ready(e) => EffectSafe(db, w, x, e)
       case Committed => true
       case Aborted => true
  }

  ghost predicate AllSafe(s: State) {
    Safe(s.db.books) && forall w :: w in s.requests ==> RequestSafe(s.db, w, s.requests[w])
  }

  /** Committing request `x` raises what some milestone reserves when it is active. */
  predicate Raises(db: Database, x: Request, a: Action) {
    && a.Commit? && x.call.EditCall? && x.pc.Ready? && x.pc.effect.Rewrites? && x.pc.effect.m < |db.books.milestones|
    && !NotRaised(db.books.milestones[x.pc.effect.m], x.pc.effect.row)
  }

  // ----- one commit -----

  ghost predicate Follows(b: Books, c: Books) {
    && LineageOk(c.invoices) && InvoicesGrew(b.invoices, c.invoices) && |c.milestones| == |b.milestones|
    && forall m :: 0 <= m < |b.milestones| ==>
         RowSafe(c, m) && NotRaised(b.milestones[m], c.milestones[m]) && PointerSteps(b, c, m)
  }

  lemma CreateFollows(db: Database, w: WorkerId, x: Request, from: Option<InvoiceId>, claim: Option<MilestoneId>)
    requires Safe(db.books) && EffectSafe(db, w, x, Creates(from, claim))
    ensures Follows(db.books, Insert(db.books, from, claim)) && WithinBudget(Insert(db.books, from, claim).milestones)
  {
    var b, c := db.books, Insert(db.books, from, claim);
    forall m | 0 <= m < |b.milestones| ensures RowSafe(c, m) && PointerSteps(b, c, m) {
      assert RowSafe(b, m);
    }
    if claim.Some? {
      assert RowSafe(b, claim.value);
      BudgetAfterClaim(b.milestones, claim.value, c.milestones[claim.value]);
    }
  }

  lemma MoveFollows(db: Database, w: WorkerId, x: Request, i: InvoiceId, to: DocStatus, claim: Option<MilestoneId>)
    requires Safe(db.books) && EffectSafe(db, w, x, Moves(i, to, claim))
    ensures var c := Transition(db.books, i, to, claim); Follows(db.books, c) && WithinBudget(c.milestones)
  {
    var b, c := db.books, Transition(db.books, i, to, claim);
    forall m | 0 <= m < |b.milestones| ensures RowSafe(c, m) && PointerSteps(b, c, m) {
      assert RowSafe(b, m);
    }
    if claim.Some? {
      assert RowSafe(b, claim.value);
      BudgetShrinks(c.milestones, b.milestones);
    }
  }

  lemma RewriteFollows(db: Database, w: WorkerId, x: Request, m: MilestoneId, row: Milestone)
    requires Safe(db.books) && EffectSafe(db, w, x, Rewrites(m, row)) && NotRaised(db.books.milestones[m], row)
    ensures var c := Write(db.books, Rewrites(m, row)); Follows(db.books, c) && WithinBudget(c.milestones)
  {
    var b, c := db.books, Write(db.books, Rewrites(m, row));
    forall k | 0 <= k < |b.milestones| ensures RowSafe(c, k) && PointerSteps(b, c, k) {
      assert RowSafe(b, k);
    }
    assert RowSafe(b, m);
    BudgetShrinks(c.milestones, b.milestones);
  }

  /** A repaired row is active only if it was in the snapshot, and reserves no more than there. */
  lemma RepairedRowIsSafe(snap: Books, b: Books, m: MilestoneId)
    requires Safe(b) && Since(snap, b) && m < |b.milestones|
    ensures var c := Repaired(b, snap.invoices);
      && RowSafe(c, m) && PointerSteps(b, c, m)
      && NoMore(c.milestones[m], snap.milestones[m])
  {
    assert RowSafe(b, m) && RowSafe(snap, m) && Traced(snap, b, m);
  }

  lemma RepairFollows(snap: Books, b: Books)
    requires Safe(b) && Since(snap, b)
    ensures var c := Repaired(b, snap.invoices); Follows(b, c) && WithinBudget(c.milestones)
  {
    var c := Repaired(b, snap.invoices);
    forall m | 0 <= m < |b.milestones|
      ensures RowSafe(c, m) && PointerSteps(b, c, m)
      ensures NoMore(c.milestones[m], snap.milestones[m])
    {
      RepairedRowIsSafe(snap, b, m);
    }
    BudgetShrinks(c.milestones, snap.milestones);
  }

  lemma WriteFollows(db: Database, w: WorkerId, x: Request)
    requires Safe(db.books) && Since(x.snap, db.books) && x.pc.Ready? && EffectSafe(db, w, x, x.pc.effect)
    requires !Raises(db, x, Commit(w))
    ensures Follows(db.books, Write(db.books, x.pc.effect)) && Safe(Write(db.books, x.pc.effect))
  {
    match x.pc.effect
    case Creates(from, claim) => CreateFollows(db, w, x, from, claim);
    case Moves(i, to, claim) => MoveFollows(db, w, x, i, to, claim);
    case Rewrites(m, row) => RewriteFollows(db, w, x, m, row);
    case Repairs(seen) => RepairFollows(x.snap, db.books);
  }

  lemma SinceFollows(snap: Books, b: Books, c: Books)
    requires Safe(b) && Safe(c) && Since(snap, b) && Follows(b, c)
    ensures Since(snap, c)
  {
    forall m | 0 <= m < |c.milestones|
      ensures RowSafe(c, m) && NotRaised(snap.milestones[m], c.milestones[m]) && Traced(snap, c, m)
    {
      TracedOn(snap, b, c, m);
    }
  }

  // ----- the requests under somebody else's commit -----

  /** An effect writes only rows its owner has locked, moves only an invoice it has locked, and
      raises only what is reserved of a project it has locked. */
  lemma WritesOwnRows(db: Database, w: WorkerId, x: Request, m: MilestoneId)
    requires x.pc.Ready? && EffectSafe(db, w, x, x.pc.effect) && m < |db.books.milestones|
    ensures |Write(db.books, x.pc.effect).milestones| == |db.books.milestones|
    ensures Touches(x.pc.effect, m) ==> Holds(db, w, MilestoneRow(m))
    ensures !Touches(x.pc.effect, m) ==> Write(db.books, x.pc.effect).milestones[m] == db.books.milestones[m]
  {
  }

  lemma RaisesOwnProjects(db: Database, w: WorkerId, x: Request, k: MilestoneId, p: ProjectId)
    requires Safe(db.books) && x.pc.Ready? && EffectSafe(db, w, x, x.pc.effect) && !x.pc.effect.Repairs?
    requires !Raises(db, x, Commit(w)) && k < |db.books.milestones| && !Holds(db, w, ProjectRow(p))
    ensures |Write(db.books, x.pc.effect).milestones| == |db.books.milestones|
    ensures Share(Write(db.books, x.pc.effect).milestones[k], p) <= Share(db.books.milestones[k], p)
  {
    assert RowSafe(db.books, k);
  }

  lemma CapacityStays(db: Database, w: WorkerId, x: Request, v: WorkerId, m: MilestoneId)
    requires Safe(db.books) && x.pc.Ready? && EffectSafe(db, w, x, x.pc.effect) && v != w && !Raises(db, x, Commit(w))
    requires m < |db.books.milestones| && HasCapacity(db.books.milestones, m)
    requires Holds(db, v, MilestoneRow(m)) && Holds(db, v, ProjectRow(db.books.milestones[m].project))
    ensures |Write(db.books, x.pc.effect).milestones| == |db.books.milestones|
    ensures HasCapacity(Write(db.books, x.pc.effect).milestones, m)
  {
    var b, e := db.books, x.pc.effect;
    var c, p := Write(b, e), b.milestones[m].project;
    WritesOwnRows(db, w, x, m);
    assert Holds(db, v, ProjectRow(p)) && !Holds(db, w, ProjectRow(p));
    OneRowChanges(b, e);
    if k: MilestoneId :| k < |b.milestones| && Touches(e, k) && c.milestones == b.milestones[k := c.milestones[k]] {
      RaisesOwnProjects(db, w, x, k, p);
      ReservedAfterUpdate(b.milestones, k, c.milestones[k], p, Some(m));
      if b.milestones[m].billing == PercentOfBudget {
        FitsBeside(Reserved(c.milestones, p, Some(m)), Reserved(b.milestones, p, Some(m)), b.milestones[m].percent);
      }
    }
  }

  /** What a claim relies on. */
  lemma ClaimStaysSafe(db: Database, w: WorkerId, x: Request, v: WorkerId, y: Request)
    requires Safe(db.books) && Since(x.snap, db.books) && x.pc.Ready? && EffectSafe(db, w, x, x.pc.effect)
    requires !Raises(db, x, Commit(w)) && v != w
    requires y.pc.Ready? && y.pc.effect.Creates? && EffectSafe(db, v, y, y.pc.effect)
    ensures EffectSafe(Released(db.(books := Write(db.books, x.pc.effect)), w), v, y, y.pc.effect)
  {
    hide HasCapacity, Since, Safe;
    var claim := y.pc.effect.claim;
    WriteFollows(db, w, x);
    if claim.Some? {
      WritesOwnRows(db, w, x, claim.value);
      CapacityStays(db, w, x, v, claim.value);
    }
  }

  lemma EffectStaysSafe(db: Database, w: WorkerId, x: Request, v: WorkerId, y: Request)
    requires Safe(db.books) && Since(x.snap, db.books) && x.pc.Ready? && EffectSafe(db, w, x, x.pc.effect)
    requires !Raises(db, x, Commit(w)) && v != w && y.pc.Ready? && EffectSafe(db, v, y, y.pc.effect)
    ensures EffectSafe(Released(db.(books := Write(db.books, x.pc.effect)), w), v, y, y.pc.effect)
  {
    hide HasCapacity, Since, WithinBudget;
    WriteFollows(db, w, x);
    match y.pc.effect
    case Creates(_, _) => ClaimStaysSafe(db, w, x, v, y);
    case Moves(_, _, claim) =>
      if claim.Some? {
        WritesOwnRows(db, w, x, claim.value);
      }
    case Rewrites(m, _) =>
      assert RowSafe(db.books, m);
      WritesOwnRows(db, w, x, m);
    case Repairs(_) =>
  }

  lemma InvoiceStays(db: Database, w: WorkerId, x: Request, v: WorkerId, y: Request)
    requires x.pc.Ready? && EffectSafe(db, w, x, x.pc.effect) && v != w && InvoiceHeld(db, v, y)
    ensures InvoiceHeld(Released(db.(books := Write(db.books, x.pc.effect)), w), v, y)
  {
  }

  lemma CommitKeepsSafe(db: Database, w: WorkerId, x: Request, v: WorkerId, y: Request)
    requires Safe(db.books) && RequestSafe(db, w, x) && RequestSafe(db, v, y) && v != w
    requires x.pc.Ready? && !Raises(db, x, Commit(w))
    ensures Safe(Move(db, x, Commit(w)).0.books) && RequestSafe(Move(db, x, Commit(w)).0, v, y)
  {
    hide HasCapacity, Raises, Write, InvoiceHeld;
    WriteFollows(db, w, x);
    SinceFollows(y.snap, db.books, Write(db.books, x.pc.effect));
    if y.pc.Ready? {
      EffectStaysSafe(db, w, x, v, y);
    } else if y.pc.HasMilestone? {
      WritesOwnRows(db, w, x, y.pc.m);
    }
    if InvoiceHeld(db, v, y) {
      InvoiceStays(db, w, x, v, y);
    }
  }

  lemma OthersStaySafe(db: Database, x: Request, a: Action, v: WorkerId, y: Request)
    requires Safe(db.books) && RequestSafe(db, a.w, x) && RequestSafe(db, v, y) && v != a.w && !Raises(db, x, a)
    ensures Safe(Move(db, x, a).0.books) && RequestSafe(Move(db, x, a).0, v, y)
  {
    if a.Commit? && x.pc.Ready? {
      CommitKeepsSafe(db, a.w, x, v, y);
    } else {
      LocksKept(db, x, a, v);
    }
  }

  // ----- the request that moves -----

  lemma DecisionSafe(db: Database, w: WorkerId, x: Request)
    requires Safe(db.books) && RequestSafe(db, w, x) && x.pc.HasMilestone?
    requires Decision(db.books, x.call, x.pc.m).Ready?
    ensures EffectSafe(db, w, x, Decision(db.books, x.call, x.pc.m).effect)
  {
    assert RowSafe(db.books, x.pc.m);
  }

  lemma EndingSafe(db: Database, x: Request, a: Action)
    requires Safe(db.books) && RequestSafe(db, a.w, x) && (a.Decide? || a.Commit? || a.Abort? || a.Open?) && !Raises(db, x, a)
    ensures Safe(Move(db, x, a).0.books) && RequestSafe(Move(db, x, a).0, a.w, Move(db, x, a).1)
  {
    if a.Commit? && x.pc.Ready? {
      WriteFollows(db, a.w, x);
      SinceFollows(x.snap, db.books, Write(db.books, x.pc.effect));
    } else if a.Decide? && x.pc.HasMilestone? && Decision(db.books, x.call, x.pc.m).Ready? {
      DecisionSafe(db, a.w, x);
    }
  }

  lemma LockingSafe(db: Database, x: Request, a: Action)
    requires Safe(db.books) && RequestSafe(db, a.w, x) && (a.LockInvoice? || a.LockProject? || a.Discover?)
    ensures Move(db, x, a).0.books == db.books && RequestSafe(Move(db, x, a).0, a.w, Move(db, x, a).1)
  {
    hide WithinBudget, RowSafe;
  }

  lemma MilestoneLockSafe(db: Database, x: Request, a: Action)
    requires Safe(db.books) && RequestSafe(db, a.w, x) && a.LockMilestone?
    ensures Move(db, x, a).0.books == db.books && RequestSafe(Move(db, x, a).0, a.w, Move(db, x, a).1)
  {
    hide WithinBudget, RowSafe;
  }

  lemma MoverStaysSafe(db: Database, x: Request, a: Action)
    requires Safe(db.books) && RequestSafe(db, a.w, x) && !Raises(db, x, a)
    ensures Safe(Move(db, x, a).0.books) && RequestSafe(Move(db, x, a).0, a.w, Move(db, x, a).1)
  {
    if a.LockInvoice? || a.LockProject? || a.Discover? {
      LockingSafe(db, x, a);
    } else if a.LockMilestone? {
      MilestoneLockSafe(db, x, a);
    } else {
      EndingSafe(db, x, a);
    }
  }

  // ----- every run -----

  ghost predicate RaisingEdit(s: State, a: Action) {
    a.w in s.requests && Raises(s.db, s.requests[a.w], a)
  }

  lemma SafeStep(s: State, a: Action)
    requires AllSafe(s) && !RaisingEdit(s, a)
    ensures AllSafe(Apply(s, a))
  {
    var t := Apply(s, a);
    if a.w in s.requests {
      MoverStaysSafe(s.db, s.requests[a.w], a);
      forall v | v in t.requests ensures RequestSafe(t.db, v, t.requests[v]) {
        if v != a.w {
          OthersStaySafe(s.db, s.requests[a.w], a, v, s.requests[v]);
        }
      }
    }
  }

  lemma SoundBooksAreSafe(b: Books)
    requires BooksOk(b)
    ensures Safe(b)
  {
    forall m | 0 <= m < |b.milestones| ensures RowSafe(b, m) {
      assert PointerOk(b, m) && Projects(b, m);
    }
  }

  lemma StartIsSafe(start: Books)
    requires BooksOk(start)
    ensures AllSafe(Execute(start, []))
  {
    SoundBooksAreSafe(start);
  }

  ghost predicate NeverRaises(start: Books, schedule: seq<Action>) {
    forall n :: 0 <= n < |schedule| ==> !RaisingEdit(Execute(start, schedule[..n]), schedule[n])
  }

  lemma {:induction false} SafeUpTo(start: Books, schedule: seq<Action>, n: nat)
    requires BooksOk(start) && NeverRaises(start, schedule) && n <= |schedule|
    ensures AllSafe(Execute(start, schedule[..n]))
  {
    hide AllSafe, RaisingEdit, Apply;
    if n == 0 {
      StartIsSafe(start);
      assert schedule[..n] == [];
    } else {
      SafeUpTo(start, schedule, n - 1);
      StepOf(start, schedule, n - 1);
      SafeStep(Execute(start, schedule[..n - 1]), schedule[n - 1]);
    }
  }

  /** Bulk repairs may commit from any snapshot and undo what they like: as long as no edit
      raises a milestone, every project stays within its budget. */
  lemma BudgetSurvivesRepairs(start: Books, schedule: seq<Action>, p: ProjectId)
    requires BooksOk(start) && NeverRaises(start, schedule)
    ensures InBudget(Execute(start, schedule).db.books.milestones, p)
  {
    SafeUpTo(start, schedule, |schedule|);
    assert schedule[..|schedule|] == schedule;
  }

  /** So a project over its budget takes both: a raising edit and a stale bulk repair. */
  lemma ExcessTakesBoth(start: Books, schedule: seq<Action>, p: ProjectId)
    requires BooksOk(start) && !InBudget(Execute(start, schedule).db.books.milestones, p)
    ensures !NeverRaises(start, schedule) && !Clean(start, schedule)
  {
    if NeverRaises(start, schedule) {
      BudgetSurvivesRepairs(start, schedule, p);
    }
    if Clean(start, schedule) {
      BudgetNeverExceeded(start, schedule, p);
    }
  }
}
