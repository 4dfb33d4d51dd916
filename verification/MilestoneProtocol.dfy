/** Generation, amendment, submit, cancel, trash, reconcile, bulk repair and edits of milestones as
    concurrent transactions: each has a snapshot for its discovery reads, takes its row
    locks one at a time, re-reads under them, and changes the books only when it commits.
    The sibling rows of a reservation are read without waiting for their locks, which only
    adds schedules. */
module MilestoneProtocol {
  import opened Basics
  import opened MilestoneBilling
  import opened Rounding

  type WorkerId = nat

  datatype Row = ProjectRow(p: ProjectId) | MilestoneRow(m: MilestoneId) | InvoiceRow(i: InvoiceId)

  datatype Call =
    | GenerateCall(m: MilestoneId)
    | AmendCall(predecessor: InvoiceId)
    | DocCall(i: InvoiceId, to: DocStatus)
    | ReconcileCall(m: MilestoneId)               // one milestone, first read under its lock
    | RepairCall                                  // all milestones, docstatus from the snapshot
    | EditCall(m: MilestoneId, edit: Milestone)   // terms of an uninvoiced milestone

  /** The writes a transaction commits. */
  datatype Effect =
    | Creates(amendedFrom: Option<InvoiceId>, claim: Option<MilestoneId>)
    | Moves(i: InvoiceId, to: DocStatus, claim: Option<MilestoneId>)
    | Rewrites(m: MilestoneId, row: Milestone)
    | Repairs(seen: seq<Invoice>)

  datatype Pc =
    | Opened
    | HasInvoice                                   // holds the invoice row
    | Found(claim: Option<MilestoneId>)            // discovery done, from the snapshot
    | HasProject(m: MilestoneId, p: ProjectId)     // holds the project row
    | HasMilestone(m: MilestoneId)                 // holds the milestone row (and the project's)
    | Repairing(taken: nat)                        // holds the first `taken` milestone rows
    | Ready(effect: Effect)
    | Committed
    | Aborted

  datatype Request = Request(call: Call, pc: Pc, snap: Books)

  datatype Database = Database(books: Books, locks: map<Row, WorkerId>)

  datatype State = State(db: Database, requests: map<WorkerId, Request>)

  datatype Action =
    | Open(w: WorkerId, call: Call)
    | LockInvoice(w: WorkerId)
    | Discover(w: WorkerId, found: Option<MilestoneId>)
    | LockProject(w: WorkerId)
    | LockMilestone(w: WorkerId)
    | Decide(w: WorkerId)
    | Commit(w: WorkerId)
    | Abort(w: WorkerId)

  predicate Holds(db: Database, w: WorkerId, r: Row) {
    r in db.locks && db.locks[r] == w
  }

  predicate Grantable(db: Database, w: WorkerId, r: Row) {
    r in db.locks ==> db.locks[r] == w
  }

  function Locked(db: Database, w: WorkerId, r: Row): Database {
    db.(locks := db.locks[r := w])
  }

  function Released(db: Database, w: WorkerId): Database {
    db.(locks := map r | r in db.locks && db.locks[r] != w :: db.locks[r])
  }

  function Write(b: Books, e: Effect): Books
    requires EffectFits(b, e)
  {
    match e
    case Creates(from, claim) => Insert(b, from, claim)
    case Moves(i, to, claim) => Transition(b, i, to, claim)
    case Rewrites(m, row) => b.(milestones := b.milestones[m := row])
    case Repairs(seen) => Repaired(b, seen)
  }

  /** What the bulk repair makes of a row it has locked. */
  function RepairedRow(row: Milestone, seen: seq<Invoice>): Milestone {
    var (status, invoice) := InvoiceState(seen, row.invoice);
    row.(status := status, invoice := invoice)
  }

  /** The bulk repair of every row; its rows stay locked from their read to the commit. */
  function Repaired(b: Books, seen: seq<Invoice>): Books {
    b.(milestones := seq(|b.milestones|, k requires 0 <= k < |b.milestones| => RepairedRow(b.milestones[k], seen)))
  }

  predicate EffectFits(b: Books, e: Effect) {
    match e
    case Creates(_, claim) => claim.Some? ==> claim.value < |b.milestones|
    case Moves(i, _, claim) => i < |b.invoices| && (claim.Some? ==> claim.value < |b.milestones|)
    case Rewrites(m, _) => m < |b.milestones|
    case Repairs(_) => true
  }

  /** Discovery reads the snapshot: any milestone that points at `i` there, or none at all. */
  predicate Discovers(snap: Books, i: InvoiceId, found: Option<MilestoneId>) {
    if found.Some? then PointsAt(snap, found.value, i)
    else forall m :: 0 <= m < |snap.milestones| ==> !PointsAt(snap, m, i)
  }

  /** The checks of each request once the milestone row is locked, on the current books. */
  function Decision(b: Books, call: Call, m: MilestoneId): Pc
    requires m < |b.milestones|
  {
    var row := b.milestones[m];
    match call
    case GenerateCall(_) =>
      if !row.completed || row.billing == NoBilling || Active(row) || !HasCapacity(b.milestones, m) then Aborted
      else Ready(Creates(None, Some(m)))
    case AmendCall(pred) =>
      if row.invoice != Some(pred) then Ready(Creates(Some(pred), None))
      else if !HasCapacity(b.milestones, m) then Aborted
      else Ready(Creates(Some(pred), Some(m)))
    case DocCall(i, to) => Ready(Moves(i, to, if row.invoice == Some(i) then Some(m) else None))
    case ReconcileCall(_) =>
      var (status, invoice) := InvoiceState(b.invoices, row.invoice);
      Ready(Rewrites(m, row.(status := status, invoice := invoice)))
    case RepairCall => Aborted
    case EditCall(_, edit) =>
      if Active(row) || edit.percent < 0.0 then Aborted
      else Ready(Rewrites(m, edit.(status := row.status, invoice := row.invoice)))
  }

  function AfterDiscovery(call: Call, found: Option<MilestoneId>): Pc {
    if found.Some? then Found(found)
    else if call.AmendCall? then Ready(Creates(Some(call.predecessor), None))
    else if call.DocCall? then Ready(Moves(call.i, call.to, None))
    else Aborted
  }

  predicate Fresh(b: Books, snap: Books, i: InvoiceId) {
    i < |snap.invoices| && i < |b.invoices| && snap.invoices[i].docstatus == b.invoices[i].docstatus
  }

  /** One step of one request. A step whose guard does not hold changes nothing. */
  function Move(db: Database, x: Request, a: Action): (Database, Request) {
    var b := db.books;
    match a
    case Open(_, _) => (db, x)
    case LockInvoice(w) =>
      if !x.pc.Opened? || !x.call.DocCall? || !Grantable(db, w, InvoiceRow(x.call.i)) then (db, x)
      else if !Fresh(b, x.snap, x.call.i) || !Legal(b.invoices[x.call.i].docstatus, x.call.to) then
        (Released(db, w), x.(pc := Aborted))
      else (Locked(db, w, InvoiceRow(x.call.i)), x.(pc := HasInvoice))
    case Discover(_, found) =>
      if x.pc.HasInvoice? && x.call.DocCall? && Discovers(x.snap, x.call.i, found) then
        (db, x.(pc := AfterDiscovery(x.call, found)))
      else if x.pc.Opened? && x.call.AmendCall? && x.call.predecessor < |x.snap.invoices|
           && x.snap.invoices[x.call.predecessor].docstatus == CancelledDoc
           && Discovers(x.snap, x.call.predecessor, found) then
        (db, x.(pc := AfterDiscovery(x.call, found)))
      else (db, x)
    case LockProject(w) =>
      var m := ProjectFirst(x);
      if m.None? || !Grantable(db, w, ProjectRow(x.snap.milestones[m.value].project)) then (db, x) else
      var p := x.snap.milestones[m.value].project;
      (Locked(db, w, ProjectRow(p)), x.(pc := HasProject(m.value, p)))
    case LockMilestone(w) =>
      if x.call.RepairCall? && (x.pc.Opened? || x.pc.Repairing?) then
        var k := if x.pc.Opened? then 0 else x.pc.taken;
        if k >= |x.snap.milestones| then (db, x.(pc := Ready(Repairs(x.snap.invoices))))
        else if !Grantable(db, w, MilestoneRow(k)) then (db, x)
        else (Locked(db, w, MilestoneRow(k)), x.(pc := Repairing(k + 1)))
      else
      var m := MilestoneNext(x);
      if m.None? || !Grantable(db, w, MilestoneRow(m.value)) then (db, x)
      else if m.value >= |b.milestones| || (x.pc.HasProject? && b.milestones[m.value].project != x.pc.p) then
        (Released(db, w), x.(pc := Aborted))
      else (Locked(db, w, MilestoneRow(m.value)), x.(pc := HasMilestone(m.value)))
    case Decide(w) =>
      if !x.pc.HasMilestone? || x.pc.m >= |b.milestones| then (db, x) else
      var next := Decision(b, x.call, x.pc.m);
      (if next.Aborted? then Released(db, w) else db, x.(pc := next))
    case Commit(w) =>
      if !x.pc.Ready? || !EffectFits(b, x.pc.effect) then (db, x) else
      (Released(db.(books := Write(b, x.pc.effect)), w), x.(pc := Committed))
    case Abort(w) =>
      if x.pc.Committed? || x.pc.Aborted? then (db, x) else (Released(db, w), x.(pc := Aborted))
  }

  /** The milestone whose project row the request locks next. */
  function ProjectFirst(x: Request): (m: Option<MilestoneId>)
    ensures m.Some? ==> m.value < |x.snap.milestones|
  {
    if x.pc.Opened? && x.call.GenerateCall? && x.call.m < |x.snap.milestones| then Some(x.call.m)
    else if x.pc.Found? && x.call.AmendCall? && x.pc.claim.Some? && x.pc.claim.value < |x.snap.milestones| then x.pc.claim
    else None
  }

  /** The milestone row the request locks next. */
  function MilestoneNext(x: Request): Option<MilestoneId> {
    if x.pc.HasProject? then Some(x.pc.m)
    else if x.pc.Found? && x.call.DocCall? then x.pc.claim
    else if x.pc.Opened? && x.call.ReconcileCall? then Some(x.call.m)
    else if x.pc.Opened? && x.call.EditCall? then Some(x.call.m)
    else None
  }

  function Apply(s: State, a: Action): State {
    if a.w in s.requests then
      var (db, x) := Move(s.db, s.requests[a.w], a);
      State(db, s.requests[a.w := x])
    else if a.Open? then
      s.(requests := s.requests[a.w := Request(a.call, Opened, s.db.books)])
    else
      s
  }

  function Execute(start: Books, schedule: seq<Action>): State {
    if schedule == [] then State(Database(start, map[]), map[])
    else Apply(Execute(start, schedule[..|schedule| - 1]), schedule[|schedule| - 1])
  }

  // ----- the invariant -----

  function Age(d: DocStatus): nat {
    match d case DraftDoc => 0 case SubmittedDoc => 1 case CancelledDoc => 2 case DeletedDoc => 3
  }

  ghost predicate InvoicesGrew(a: seq<Invoice>, b: seq<Invoice>) {
    && |a| <= |b|
    && forall i :: 0 <= i < |a| ==> a[i].amendedFrom == b[i].amendedFrom && Age(a[i].docstatus) <= Age(b[i].docstatus)
  }

  ghost predicate SameHolders(a: Books, b: Books, i: InvoiceId) {
    forall m :: 0 <= m < |b.milestones| ==> (PointsAt(a, m, i) <==> PointsAt(b, m, i))
  }

  /** `b` is a later version of the books than `a`: invoices only age, and while an invoice is
      live, the milestones that point at it stay the same. */
  ghost predicate Later(a: Books, b: Books) {
    && |a.milestones| == |b.milestones|
    && InvoicesGrew(a.invoices, b.invoices)
    && forall i :: 0 <= i < |a.invoices| && LiveInvoice(b.invoices, i) ==> SameHolders(a, b, i)
  }

  ghost predicate Unclaimed(b: Books, i: InvoiceId) {
    forall m :: 0 <= m < |b.milestones| ==> !PointsAt(b, m, i)
  }

  /** What the owner of a ready effect can rely on until it commits. */
  ghost predicate EffectOk(db: Database, w: WorkerId, e: Effect) {
    var b := db.books;
    && EffectFits(b, e)
    && match e
       case Creates(from, claim) =>
         && (from.Some? ==> from.value < |b.invoices| && !LiveInvoice(b.invoices, from.value))
         && (claim.Some? ==>
               && Holds(db, w, MilestoneRow(claim.value)) && Holds(db, w, ProjectRow(b.milestones[claim.value].project))
               && !Active(b.milestones[claim.value]) && HasCapacity(b.milestones, claim.value)
               && (from.Some? ==> b.milestones[claim.value].invoice == from)
               && (from.None? ==> b.milestones[claim.value].completed && b.milestones[claim.value].billing != NoBilling))
       case Moves(i, to, claim) =>
         && Holds(db, w, InvoiceRow(i)) && Legal(b.invoices[i].docstatus, to)
         && (claim.Some? ==> Holds(db, w, MilestoneRow(claim.value)) && PointsAt(b, claim.value, i))
         && (claim.None? && LiveInvoice(b.invoices, i) ==> Unclaimed(b, i))
       case Rewrites(m, row) =>
         && Holds(db, w, MilestoneRow(m)) && row.percent >= 0.0
         && row.status == b.milestones[m].status
         && (row.invoice == b.milestones[m].invoice || (row.invoice.None? && row.status == NotInvoiced))
         && (Active(row) ==> row == b.milestones[m])
       case Repairs(seen) =>
         && InvoicesGrew(seen, b.invoices) && forall k :: 0 <= k < |b.milestones| ==> Holds(db, w, MilestoneRow(k))
  }

  ghost predicate RequestOk(db: Database, w: WorkerId, x: Request) {
    && BooksOk(x.snap) && Later(x.snap, db.books)
    && match x.pc
       case Opened => true
       case HasInvoice => InvoiceHeld(db, w, x)
       case Found(claim) =>
         && (x.call.AmendCall? || x.call.DocCall?)
         && (x.call.AmendCall? ==> AmendsDead(db, x.call.predecessor))
         && (x.call.DocCall? ==> InvoiceHeld(db, w, x))
         && claim.Some?
         && PointsAt(x.snap, claim.value, if x.call.AmendCall? then x.call.predecessor else x.call.i)
       case HasProject(m, p) =>
         && (x.call.GenerateCall? || x.call.AmendCall?)
         && (x.call.AmendCall? ==> AmendsDead(db, x.call.predecessor))
         && Holds(db, w, ProjectRow(p))
       case HasMilestone(m) =>
         && m < |db.books.milestones| && Holds(db, w, MilestoneRow(m))
         && (x.call.AmendCall? ==> AmendsDead(db, x.call.predecessor))
         && (x.call.GenerateCall? || x.call.AmendCall? ==> Holds(db, w, ProjectRow(db.books.milestones[m].project)))
         && (x.call.DocCall? ==> InvoiceHeld(db, w, x) && PointsAt(x.snap, m, x.call.i))
       case Repairing(taken) => x.call.RepairCall? && forall k :: 0 <= k < taken ==> Holds(db, w, MilestoneRow(k))
       case Ready(e) => EffectOk(db, w, e)
       case Committed => true
       case Aborted => true
  }

  ghost predicate AmendsDead(db: Database, i: InvoiceId) {
    i < |db.books.invoices| && !LiveInvoice(db.books.invoices, i)
  }

  ghost predicate InvoiceHeld(db: Database, w: WorkerId, x: Request) {
    && x.call.DocCall? && Holds(db, w, InvoiceRow(x.call.i))
    && Fresh(db.books, x.snap, x.call.i) && Legal(db.books.invoices[x.call.i].docstatus, x.call.to)
  }

  ghost predicate Inv(s: State) {
    BooksOk(s.db.books) && forall w :: w in s.requests ==> RequestOk(s.db, w, s.requests[w])
  }

  // ----- committing an effect keeps the books -----

  lemma RootsStay(a: seq<Invoice>, b: seq<Invoice>)
    requires LineageOk(a) && LineageOk(b) && InvoicesGrew(a, b)
    ensures forall i :: 0 <= i < |a| ==> Root(a, i) == Root(b, i)
  {
    forall i | 0 <= i < |a| ensures Root(a, i) == Root(b, i) {
      RootStays(a, b, i);
    }
  }

  /** Books whose invoices only aged, and whose milestone `m` alone moved its pointer within
      its own lineage or away, keep their lineages apart. */
  lemma LineagesStayApart(b: Books, c: Books, m: MilestoneId)
    requires BooksOk(b) && LineageOk(c.invoices) && RowsOk(c) && InvoicesGrew(b.invoices, c.invoices)
    requires m < |b.milestones| == |c.milestones|
    requires forall k :: 0 <= k < |b.milestones| && k != m ==> c.milestones[k].invoice == b.milestones[k].invoice
    requires var i, j := c.milestones[m].invoice, b.milestones[m].invoice;
      i.Some? ==>
        || (j.Some? && Root(c.invoices, i.value) == Root(b.invoices, j.value))
        || Root(c.invoices, i.value) >= |b.invoices|
    ensures LineagesApart(c)
  {
    RootsStay(b.invoices, c.invoices);
    forall k, l | 0 <= k < |c.milestones| && 0 <= l < |c.milestones| ensures RootsApart(c, k, l) {
      assert RootsApart(b, k, l) && RootsApart(b, l, k);
      if b.milestones[l].invoice.Some? {
        RootIsOld(b.invoices, b.milestones[l].invoice.value);
      }
      if b.milestones[k].invoice.Some? {
        RootIsOld(b.invoices, b.milestones[k].invoice.value);
      }
    }
  }

  lemma CreateRows(db: Database, w: WorkerId, from: Option<InvoiceId>, claim: Option<MilestoneId>)
    requires BooksOk(db.books) && EffectOk(db, w, Creates(from, claim))
    ensures var c := Insert(db.books, from, claim); LineageOk(c.invoices) && RowsOk(c) && Later(db.books, c)
  {
    var b, c := db.books, Insert(db.books, from, claim);
    forall k | 0 <= k < |c.milestones| ensures PointerOk(c, k) && Projects(c, k) && c.milestones[k].percent >= 0.0 {
      assert PointerOk(b, k) && Projects(b, k);
    }
    forall i | 0 <= i < |b.invoices| && LiveInvoice(c.invoices, i) ensures SameHolders(b, c, i) {
      forall k | 0 <= k < |c.milestones| ensures PointsAt(b, k, i) <==> PointsAt(c, k, i) {
        assert Projects(b, k);
      }
    }
  }

  lemma WriteCreates(db: Database, w: WorkerId, from: Option<InvoiceId>, claim: Option<MilestoneId>)
    requires BooksOk(db.books) && EffectOk(db, w, Creates(from, claim))
    ensures BooksOk(Insert(db.books, from, claim)) && Later(db.books, Insert(db.books, from, claim))
  {
    var b, c := db.books, Insert(db.books, from, claim);
    CreateRows(db, w, from, claim);
    RootsStay(b.invoices, c.invoices);
    if claim.Some? {
      assert PointerOk(b, claim.value) && b.milestones[claim.value].percent >= 0.0;
      BudgetAfterClaim(b.milestones, claim.value, c.milestones[claim.value]);
      LineagesStayApart(b, c, claim.value);
    } else if |b.milestones| > 0 {
      LineagesStayApart(b, c, 0);
    }
  }

  lemma MovedRow(db: Database, w: WorkerId, i: InvoiceId, to: DocStatus, claim: Option<MilestoneId>, k: MilestoneId)
    requires BooksOk(db.books) && EffectOk(db, w, Moves(i, to, claim)) && k < |db.books.milestones|
    ensures var c := Transition(db.books, i, to, claim);
      |c.milestones| == |db.books.milestones| && PointerOk(c, k) && Projects(c, k) && c.milestones[k].percent >= 0.0
  {
    var b := db.books;
    assert PointerOk(b, k) && Projects(b, k);
    if claim.Some? && k != claim.value {
      PointersAreDistinct(b, claim.value, k);
    }
    assert claim.None? && LiveInvoice(b.invoices, i) ==> !PointsAt(b, k, i);
  }

  lemma MoveRows(db: Database, w: WorkerId, i: InvoiceId, to: DocStatus, claim: Option<MilestoneId>)
    requires BooksOk(db.books) && EffectOk(db, w, Moves(i, to, claim))
    ensures var c := Transition(db.books, i, to, claim); LineageOk(c.invoices) && RowsOk(c) && Later(db.books, c)
  {
    var b, c := db.books, Transition(db.books, i, to, claim);
    assert LineageOk(c.invoices);
    forall k | 0 <= k < |c.milestones| ensures PointerOk(c, k) && Projects(c, k) && c.milestones[k].percent >= 0.0 {
      MovedRow(db, w, i, to, claim, k);
    }
    forall j | 0 <= j < |b.invoices| && LiveInvoice(c.invoices, j) ensures SameHolders(b, c, j) {
    }
  }

  lemma WriteMoves(db: Database, w: WorkerId, i: InvoiceId, to: DocStatus, claim: Option<MilestoneId>)
    requires BooksOk(db.books) && EffectOk(db, w, Moves(i, to, claim))
    ensures BooksOk(Transition(db.books, i, to, claim)) && Later(db.books, Transition(db.books, i, to, claim))
  {
    var b, c := db.books, Transition(db.books, i, to, claim);
    MoveRows(db, w, i, to, claim);
    RootsStay(b.invoices, c.invoices);
    if claim.Some? {
      assert Projects(b, claim.value);
      BudgetShrinks(c.milestones, b.milestones);
      LineagesStayApart(b, c, claim.value);
    } else if |b.milestones| > 0 {
      LineagesStayApart(b, c, 0);
    }
  }

  lemma WriteRewrites(db: Database, w: WorkerId, m: MilestoneId, row: Milestone)
    requires BooksOk(db.books) && EffectOk(db, w, Rewrites(m, row))
    ensures var c := Write(db.books, Rewrites(m, row)); BooksOk(c) && Later(db.books, c)
  {
    var b, c := db.books, Write(db.books, Rewrites(m, row));
    assert PointerOk(b, m) && Projects(b, m);
    forall k | 0 <= k < |c.milestones| ensures PointerOk(c, k) && Projects(c, k) && c.milestones[k].percent >= 0.0 {
      assert PointerOk(b, k) && Projects(b, k);
    }
    BudgetShrinks(c.milestones, b.milestones);
    LineagesStayApart(b, c, m);
    forall j | 0 <= j < |b.invoices| && LiveInvoice(c.invoices, j) ensures SameHolders(b, c, j) {
      assert PointsAt(b, m, j) ==> Active(b.milestones[m]);
    }
  }

  /** The snapshot and the present books agree whether invoice `i` is a draft and whether it
      is submitted; an invoice the snapshot does not know was neither. */
  predicate SameStanding(seen: seq<Invoice>, now: seq<Invoice>, i: InvoiceId) {
    && ((i < |seen| && seen[i].docstatus == DraftDoc) <==> (i < |now| && now[i].docstatus == DraftDoc))
    && ((i < |seen| && seen[i].docstatus == SubmittedDoc) <==> (i < |now| && now[i].docstatus == SubmittedDoc))
  }

  /** No milestone points at an invoice whose standing changed since the snapshot. */
  ghost predicate UpToDate(b: Books, seen: seq<Invoice>) {
    forall m: MilestoneId, i: InvoiceId :: PointsAt(b, m, i) ==> SameStanding(seen, b.invoices, i)
  }

  lemma RepairedRowKeeps(b: Books, seen: seq<Invoice>, k: MilestoneId)
    requires BooksOk(b) && UpToDate(b, seen) && k < |b.milestones|
    ensures var row, c := b.milestones[k], Repaired(b, seen);
      && PointerOk(c, k) && Projects(c, k)
      && c.milestones[k].status == row.status
      && (c.milestones[k].invoice == row.invoice || (c.milestones[k].invoice.None? && !Active(row)))
  {
    assert PointerOk(b, k) && Projects(b, k);
    if b.milestones[k].invoice.Some? {
      assert PointsAt(b, k, b.milestones[k].invoice.value);
    }
  }

  lemma RepairKeepsBudget(b: Books, seen: seq<Invoice>)
    requires BooksOk(b) && UpToDate(b, seen)
    ensures WithinBudget(Repaired(b, seen).milestones)
  {
    var c := Repaired(b, seen);
    forall k | 0 <= k < |b.milestones| ensures NoMore(c.milestones[k], b.milestones[k]) {
      RepairedRowKeeps(b, seen, k);
      assert PointerOk(b, k) && b.milestones[k].percent >= 0.0;
    }
    BudgetShrinks(c.milestones, b.milestones);
  }

  /** A repair from an up-to-date snapshot keeps the books, */
  lemma WriteRepairs(b: Books, seen: seq<Invoice>)
    requires BooksOk(b) && UpToDate(b, seen)
    ensures BooksOk(Repaired(b, seen)) && Later(b, Repaired(b, seen))
  {
    var c := Repaired(b, seen);
    forall k | 0 <= k < |c.milestones| ensures PointerOk(c, k) && Projects(c, k) && c.milestones[k].percent >= 0.0 {
      RepairedRowKeeps(b, seen, k);
      assert PointerOk(b, k) && b.milestones[k].percent >= 0.0;
    }
    RepairKeepsBudget(b, seen);
    forall k, l | 0 <= k < |c.milestones| && 0 <= l < |c.milestones| ensures RootsApart(c, k, l) {
      RepairedRowKeeps(b, seen, k);
      RepairedRowKeeps(b, seen, l);
      assert RootsApart(b, k, l);
    }
    forall i | 0 <= i < |b.invoices| && LiveInvoice(c.invoices, i) ensures SameHolders(b, c, i) {
      forall k | 0 <= k < |c.milestones| ensures PointsAt(b, k, i) <==> PointsAt(c, k, i) {
        RepairedRowKeeps(b, seen, k);
        assert Projects(b, k);
      }
    }
  }

  /** and one from any other snapshot breaks them: a stored status is no longer the derived
      one, or a live invoice has lost its milestone. */
  lemma StaleRepairBreaks(b: Books, seen: seq<Invoice>)
    requires BooksOk(b) && InvoicesGrew(seen, b.invoices) && !UpToDate(b, seen)
    ensures !BooksOk(Repaired(b, seen)) || !Later(b, Repaired(b, seen))
  {
    var c := Repaired(b, seen);
    var m: MilestoneId, i: InvoiceId :| PointsAt(b, m, i) && !SameStanding(seen, b.invoices, i);
    assert PointerOk(b, m);
    if i < |seen| {
      assert !Projects(c, m);
    } else {
      assert LiveInvoice(c.invoices, i) && PointsAt(b, m, i) && !PointsAt(c, m, i);
      assert !SameHolders(b, c, i);
    }
  }

  /** The effect is no repair from an outdated snapshot. */
  ghost predicate Sane(b: Books, e: Effect) {
    e.Repairs? ==> UpToDate(b, e.seen)
  }

  lemma WriteOk(db: Database, w: WorkerId, e: Effect)
    requires BooksOk(db.books) && EffectOk(db, w, e) && Sane(db.books, e)
    ensures BooksOk(Write(db.books, e)) && Later(db.books, Write(db.books, e))
  {
    match e
    case Creates(from, claim) => WriteCreates(db, w, from, claim);
    case Moves(i, to, claim) => WriteMoves(db, w, i, to, claim);
    case Rewrites(m, row) => WriteRewrites(db, w, m, row);
    case Repairs(seen) => WriteRepairs(db.books, seen);
  }

  // ----- one step -----

  /** Milestone row `m` is among those the effect writes. */
  predicate Touches(e: Effect, m: MilestoneId) {
    match e
    case Creates(_, claim) => claim == Some(m)
    case Moves(_, _, claim) => claim == Some(m)
    case Rewrites(k, _) => k == m
    case Repairs(_) => true
  }

  /** An effect writes only rows its owner has locked. */
  lemma TouchesOnlyItsRows(db: Database, w: WorkerId, e: Effect, m: MilestoneId)
    requires EffectOk(db, w, e) && m < |db.books.milestones|
    ensures |Write(db.books, e).milestones| == |db.books.milestones|
    ensures Touches(e, m) ==> Holds(db, w, MilestoneRow(m))
    ensures !Touches(e, m) ==> Write(db.books, e).milestones[m] == db.books.milestones[m]
  {
  }

  lemma OneRowChanges(b: Books, e: Effect)
    requires EffectFits(b, e) && !e.Repairs?
    ensures Write(b, e).milestones == b.milestones || exists k: MilestoneId ::
      k < |b.milestones| && Touches(e, k) && Write(b, e).milestones == b.milestones[k := Write(b, e).milestones[k]]
  {
    match e
    case Creates(_, claim) => if claim.Some? { assert Touches(e, claim.value); }
    case Moves(_, _, claim) => if claim.Some? { assert Touches(e, claim.value); }
    case Rewrites(k, _) => assert Touches(e, k);
    case Repairs(_) =>
  }

  /** Nobody else's commit raises the reservation of a project whose row is locked. */
  lemma CapacityKept(db: Database, w: WorkerId, e: Effect, v: WorkerId, m: MilestoneId)
    requires BooksOk(db.books) && EffectOk(db, w, e) && v != w
    requires m < |db.books.milestones| && HasCapacity(db.books.milestones, m)
    requires Holds(db, v, MilestoneRow(m)) && Holds(db, v, ProjectRow(db.books.milestones[m].project))
    ensures |Write(db.books, e).milestones| == |db.books.milestones|
    ensures HasCapacity(Write(db.books, e).milestones, m)
  {
    var b, c := db.books, Write(db.books, e);
    TouchesOnlyItsRows(db, w, e, m);
    OneRowChanges(b, e);
    if k: MilestoneId :| k < |b.milestones| && Touches(e, k) && c.milestones == b.milestones[k := c.milestones[k]] {
      TouchesOnlyItsRows(db, w, e, k);
      assert Projects(b, k) && b.milestones[k].percent >= 0.0;
      ReservedAfterUpdate(b.milestones, k, c.milestones[k], b.milestones[m].project, Some(m));
      if b.milestones[m].billing == PercentOfBudget {
        var p := b.milestones[m].project;
        FitsBeside(Reserved(c.milestones, p, Some(m)), Reserved(b.milestones, p, Some(m)), b.milestones[m].percent);
      }
    }
  }

  /** What a claim relies on. */
  lemma ClaimStable(db: Database, w: WorkerId, e: Effect, v: WorkerId, f: Effect)
    requires BooksOk(db.books) && EffectOk(db, w, e) && EffectOk(db, v, f) && v != w && Sane(db.books, e) && f.Creates?
    ensures EffectOk(Released(db.(books := Write(db.books, e)), w), v, f)
  {
    hide HasCapacity, BooksOk, Sane;
    WriteOk(db, w, e);
    if f.claim.Some? {
      TouchesOnlyItsRows(db, w, e, f.claim.value);
      CapacityKept(db, w, e, v, f.claim.value);
    }
  }

  lemma EffectStable(db: Database, w: WorkerId, e: Effect, v: WorkerId, f: Effect)
    requires BooksOk(db.books) && EffectOk(db, w, e) && EffectOk(db, v, f) && v != w && Sane(db.books, e)
    ensures EffectOk(Released(db.(books := Write(db.books, e)), w), v, f)
  {
    hide HasCapacity, BooksOk, Sane;
    WriteOk(db, w, e);
    match f
    case Creates(_, _) => ClaimStable(db, w, e, v, f);
    case Moves(_, _, claim) =>
      if claim.Some? {
        TouchesOnlyItsRows(db, w, e, claim.value);
      }
    case Rewrites(m, _) => TouchesOnlyItsRows(db, w, e, m);
    case Repairs(_) =>
  }

  lemma LaterTransitive(a: Books, b: Books, c: Books)
    requires Later(a, b) && Later(b, c)
    ensures Later(a, c)
  {
    forall i | 0 <= i < |a.invoices| && LiveInvoice(c.invoices, i) ensures SameHolders(a, c, i) {
      assert SameHolders(a, b, i) && SameHolders(b, c, i);
    }
  }

  lemma CommitKeepsOthers(db: Database, x: Request, w: WorkerId, v: WorkerId, y: Request)
    requires BooksOk(db.books) && RequestOk(db, w, x) && RequestOk(db, v, y) && v != w
    requires x.pc.Ready? && Sane(db.books, x.pc.effect)
    ensures RequestOk(Move(db, x, Commit(w)).0, v, y)
  {
    hide HasCapacity, BooksOk, Sane, Write, InvoiceHeld;
    WriteOk(db, w, x.pc.effect);
    LaterTransitive(y.snap, db.books, Write(db.books, x.pc.effect));
    if y.pc.Ready? {
      EffectStable(db, w, x.pc.effect, v, y.pc.effect);
    } else if y.pc.HasMilestone? {
      TouchesOnlyItsRows(db, w, x.pc.effect, y.pc.m);
    }
    if InvoiceHeld(db, v, y) {
      InvoiceStaysHeld(db, w, x.pc.effect, v, y);
    }
  }

  lemma InvoiceStaysHeld(db: Database, w: WorkerId, e: Effect, v: WorkerId, y: Request)
    requires EffectOk(db, w, e) && v != w
    requires InvoiceHeld(db, v, y)
    ensures InvoiceHeld(Released(db.(books := Write(db.books, e)), w), v, y)
  {
  }

  /** Committing request `x` writes from an outdated snapshot. */
  ghost predicate Outdated(db: Database, x: Request, a: Action) {
    a.Commit? && x.pc.Ready? && !Sane(db.books, x.pc.effect)
  }

  lemma OtherStaysOk(db: Database, x: Request, a: Action, v: WorkerId, y: Request)
    requires BooksOk(db.books) && RequestOk(db, a.w, x) && RequestOk(db, v, y) && v != a.w && !Outdated(db, x, a)
    ensures RequestOk(Move(db, x, a).0, v, y)
  {
    if a.Commit? && x.pc.Ready? {
      CommitKeepsOthers(db, x, a.w, v, y);
    } else {
      LocksKept(db, x, a, v);
    }
  }

  /** A step that does not commit leaves the books and everyone else's locks alone. */
  lemma LocksKept(db: Database, x: Request, a: Action, v: WorkerId)
    requires v != a.w && !(a.Commit? && x.pc.Ready?)
    ensures Move(db, x, a).0.books == db.books
    ensures forall r :: Holds(db, v, r) ==> Holds(Move(db, x, a).0, v, r)
  {
  }

  /** Discovery from the snapshot is complete for an invoice that is still live. */
  lemma DiscoveryIsComplete(db: Database, x: Request, i: InvoiceId)
    requires Later(x.snap, db.books) && i < |x.snap.invoices| && Discovers(x.snap, i, None)
    requires LiveInvoice(db.books.invoices, i)
    ensures Unclaimed(db.books, i)
  {
    assert SameHolders(x.snap, db.books, i);
  }

  /** The pointer re-check under the lock, for an invoice that is still live, fails for nobody. */
  lemma DecisionOk(db: Database, x: Request, w: WorkerId)
    requires BooksOk(db.books) && RequestOk(db, w, x) && x.pc.HasMilestone?
    requires Decision(db.books, x.call, x.pc.m).Ready?
    ensures EffectOk(db, w, Decision(db.books, x.call, x.pc.m).effect)
  {
    var m := x.pc.m;
    assert Projects(db.books, m);
    if x.call.DocCall? && LiveInvoice(db.books.invoices, x.call.i) {
      assert SameHolders(x.snap, db.books, x.call.i);
    }
  }

  ghost predicate Moved(db: Database, x: Request, a: Action) {
    var (db', x') := Move(db, x, a);
    BooksOk(db'.books) && Later(db.books, db'.books) && RequestOk(db', a.w, x')
  }

  lemma InvoiceLockOk(db: Database, x: Request, a: Action)
    requires BooksOk(db.books) && RequestOk(db, a.w, x) && a.LockInvoice?
    ensures Moved(db, x, a)
  {
  }

  lemma ProjectLockOk(db: Database, x: Request, a: Action)
    requires BooksOk(db.books) && RequestOk(db, a.w, x) && a.LockProject?
    ensures Moved(db, x, a)
  {
  }

  lemma MilestoneLockOk(db: Database, x: Request, a: Action)
    requires BooksOk(db.books) && RequestOk(db, a.w, x) && a.LockMilestone?
    ensures Moved(db, x, a)
  {
    if x.call.RepairCall? {
      RepairLockOk(db, x, a);
    } else {
      OneLockOk(db, x, a);
    }
  }

  lemma RepairLockOk(db: Database, x: Request, a: Action)
    requires BooksOk(db.books) && RequestOk(db, a.w, x) && a.LockMilestone? && x.call.RepairCall?
    ensures Moved(db, x, a)
  {
    hide BooksOk, HasCapacity;
  }

  lemma OneLockOk(db: Database, x: Request, a: Action)
    requires BooksOk(db.books) && RequestOk(db, a.w, x) && a.LockMilestone? && !x.call.RepairCall?
    ensures Moved(db, x, a)
  {
    hide BooksOk, EffectOk;
  }

  lemma DiscoverOk(db: Database, x: Request, a: Action)
    requires BooksOk(db.books) && RequestOk(db, a.w, x) && a.Discover?
    ensures Moved(db, x, a)
  {
    if a.found.None? && x.call.DocCall? && x.pc.HasInvoice? && LiveInvoice(db.books.invoices, x.call.i)
      && Discovers(x.snap, x.call.i, None) {
      DiscoveryIsComplete(db, x, x.call.i);
    }
  }

  lemma EndingOk(db: Database, x: Request, a: Action)
    requires BooksOk(db.books) && RequestOk(db, a.w, x) && (a.Decide? || a.Commit? || a.Abort? || a.Open?)
    requires !Outdated(db, x, a)
    ensures Moved(db, x, a)
  {
    if a.Commit? && x.pc.Ready? {
      WriteOk(db, a.w, x.pc.effect);
      LaterTransitive(x.snap, db.books, Write(db.books, x.pc.effect));
    } else if a.Decide? && x.pc.HasMilestone? && Decision(db.books, x.call, x.pc.m).Ready? {
      DecisionOk(db, x, a.w);
    }
  }

  lemma MoverStaysOk(db: Database, x: Request, a: Action)
    requires BooksOk(db.books) && RequestOk(db, a.w, x) && !Outdated(db, x, a)
    ensures Moved(db, x, a)
  {
    match a
    case LockInvoice(_) => InvoiceLockOk(db, x, a);
    case LockProject(_) => ProjectLockOk(db, x, a);
    case LockMilestone(_) => MilestoneLockOk(db, x, a);
    case Discover(_, _) => DiscoverOk(db, x, a);
    case _ => EndingOk(db, x, a);
  }

  /** The step commits a bulk repair although the standing of a pointed invoice changed since
      its snapshot. */
  ghost predicate StaleRepair(s: State, a: Action) {
    a.w in s.requests && Outdated(s.db, s.requests[a.w], a)
  }

  lemma InvStep(s: State, a: Action)
    requires Inv(s) && !StaleRepair(s, a)
    ensures Inv(Apply(s, a)) && Later(s.db.books, Apply(s, a).db.books)
  {
    if a.w in s.requests {
      var t := Apply(s, a);
      MoverStaysOk(s.db, s.requests[a.w], a);
      forall v | v in t.requests ensures RequestOk(t.db, v, t.requests[v]) {
        if v != a.w {
          OtherStaysOk(s.db, s.requests[a.w], a, v, s.requests[v]);
        }
      }
    }
  }

  /** No step of the schedule is a stale repair. */
  ghost predicate Clean(start: Books, schedule: seq<Action>) {
    schedule == [] ||
    var n := |schedule| - 1;
    Clean(start, schedule[..n]) && !StaleRepair(Execute(start, schedule[..n]), schedule[n])
  }

  lemma {:induction false} CleanFront(start: Books, schedule: seq<Action>, n: nat)
    requires Clean(start, schedule) && n < |schedule|
    ensures Clean(start, schedule[..n]) && !StaleRepair(Execute(start, schedule[..n]), schedule[n])
  {
    hide Execute, StaleRepair;
    var m := |schedule| - 1;
    if n < m {
      CleanFront(start, schedule[..m], n);
      assert schedule[..m][..n] == schedule[..n];
    }
  }

  lemma {:induction false} InvAlways(start: Books, schedule: seq<Action>)
    requires BooksOk(start) && Clean(start, schedule)
    ensures Inv(Execute(start, schedule))
  {
    if schedule != [] {
      var n := |schedule| - 1;
      InvAlways(start, schedule[..n]);
      InvStep(Execute(start, schedule[..n]), schedule[n]);
    }
  }

  predicate RepairsNothing(x: Request) {
    !x.call.RepairCall? && !x.pc.Repairing? && (x.pc.Ready? ==> !x.pc.effect.Repairs?)
  }

  lemma MoveRepairsNothing(db: Database, x: Request, a: Action)
    requires RepairsNothing(x)
    ensures RepairsNothing(Move(db, x, a).1)
  {
  }

  lemma {:induction false} NobodyRepairs(start: Books, schedule: seq<Action>)
    requires forall a :: a in schedule && a.Open? ==> !a.call.RepairCall?
    ensures forall w :: w in Execute(start, schedule).requests ==> RepairsNothing(Execute(start, schedule).requests[w])
  {
    if schedule != [] {
      var s, a := Execute(start, schedule[..|schedule| - 1]), schedule[|schedule| - 1];
      assert a in schedule;
      NobodyRepairs(start, schedule[..|schedule| - 1]);
      if a.w in s.requests {
        MoveRepairsNothing(s.db, s.requests[a.w], a);
      }
    }
  }

  /** A schedule in which nobody starts a bulk repair is clean. */
  lemma {:induction false} CleanWithoutRepairs(start: Books, schedule: seq<Action>)
    requires forall a :: a in schedule && a.Open? ==> !a.call.RepairCall?
    ensures Clean(start, schedule)
  {
    if schedule != [] {
      var n := |schedule| - 1;
      CleanWithoutRepairs(start, schedule[..n]);
      NobodyRepairs(start, schedule[..n]);
    }
  }

  /** Step `n` of the schedule leaves correct books in which no live invoice lost its milestone. */
  ghost predicate GoodStep(start: Books, schedule: seq<Action>, n: nat)
    requires n < |schedule|
  {
    var b, c := Execute(start, schedule[..n]).db.books, Execute(start, schedule[..n + 1]).db.books;
    BooksOk(c) && Later(b, c)
  }

  /** The stale repairs are the only danger, and each of them does harm: every step of a run
      keeps the books and the milestones of live invoices exactly when no step is one. */
  lemma {:induction false} BooksKeptIffClean(start: Books, schedule: seq<Action>)
    requires BooksOk(start)
    ensures (forall n: nat :: n < |schedule| ==> GoodStep(start, schedule, n)) <==> Clean(start, schedule)
  {
    if Clean(start, schedule) {
      forall n: nat | n < |schedule| ensures GoodStep(start, schedule, n) {
        CleanStepIsGood(start, schedule, n);
      }
    } else {
      var n := FirstStale(start, schedule);
      StaleStepIsBad(start, schedule, n);
    }
  }

  lemma CleanStepIsGood(start: Books, schedule: seq<Action>, n: nat)
    requires BooksOk(start) && Clean(start, schedule) && n < |schedule|
    ensures GoodStep(start, schedule, n)
  {
    CleanFront(start, schedule, n);
    InvAlways(start, schedule[..n]);
    StepOf(start, schedule, n);
    InvStep(Execute(start, schedule[..n]), schedule[n]);
  }

  lemma StaleStepIsBad(start: Books, schedule: seq<Action>, n: nat)
    requires BooksOk(start) && n < |schedule| && Clean(start, schedule[..n])
    requires StaleRepair(Execute(start, schedule[..n]), schedule[n])
    ensures !GoodStep(start, schedule, n)
  {
    InvAlways(start, schedule[..n]);
    StepOf(start, schedule, n);
    StaleCommitBreaks(Execute(start, schedule[..n]), schedule[n]);
  }

  lemma StepOf(start: Books, schedule: seq<Action>, n: nat)
    requires n < |schedule|
    ensures Execute(start, schedule[..n + 1]) == Apply(Execute(start, schedule[..n]), schedule[n])
  {
    assert schedule[..n + 1][..n] == schedule[..n];
  }

  lemma {:induction false} FirstStale(start: Books, schedule: seq<Action>) returns (n: nat)
    requires !Clean(start, schedule)
    ensures n < |schedule| && Clean(start, schedule[..n]) && StaleRepair(Execute(start, schedule[..n]), schedule[n])
  {
    n := |schedule| - 1;
    if !Clean(start, schedule[..n]) {
      var m := n;
      n := FirstStale(start, schedule[..m]);
      assert schedule[..m][..n] == schedule[..n];
    }
  }

  lemma StaleCommitBreaks(s: State, a: Action)
    requires Inv(s) && StaleRepair(s, a)
    ensures !BooksOk(Apply(s, a).db.books) || !Later(s.db.books, Apply(s, a).db.books)
  {
    assert RequestOk(s.db, a.w, s.requests[a.w]);
    StaleRepairBreaks(s.db.books, s.requests[a.w].pc.effect.seen);
  }

  // ----- what holds over every schedule -----

  /** In every reachable state the live percentage reservations of every project stay within
      100 to the precision of the field, whatever transactions interleave: exactly when every
      percentage has at most three decimals, and within a thousandth when they have more. */
  lemma BudgetNeverExceeded(start: Books, schedule: seq<Action>, p: ProjectId)
    requires BooksOk(start) && Clean(start, schedule)
    ensures var ms := Execute(start, schedule).db.books.milestones;
      && Reserved(CutAll(ms), p, None) <= 100.0 && Reserved(ms, p, None) <= 100.001
      && (ThreeDecimals(ms, p) ==> Reserved(ms, p, None) <= 100.0)
  {
    InvAlways(start, schedule);
    var ms := Execute(start, schedule).db.books.milestones;
    assert InBudget(ms, p);
    if ThreeDecimals(ms, p) {
      InBudgetExactly(ms, p);
    }
  }

  /** The stored status of every milestone is the one derived from the invoice it points at,
      and no two milestones point at invoices of one amendment lineage. */
  lemma StatusIsDerived(start: Books, schedule: seq<Action>, m: MilestoneId, k: MilestoneId)
    requires BooksOk(start) && Clean(start, schedule) && m < |start.milestones| && k < |start.milestones|
    ensures var b := Execute(start, schedule).db.books;
      && |b.milestones| == |start.milestones|
      && b.milestones[m].status == InvoiceState(b.invoices, b.milestones[m].invoice).0
      && Younger(b.invoices) && PointerOk(b, m) && PointerOk(b, k) && RootsApart(b, m, k)
      && (m != k && b.milestones[m].invoice.Some? ==> b.milestones[m].invoice != b.milestones[k].invoice)
  {
    InvAlways(start, schedule);
    SameMilestones(start, schedule);
    var b := Execute(start, schedule).db.books;
    assert Projects(b, m) && PointerOk(b, k);
    if m != k && b.milestones[m].invoice.Some? {
      PointersAreDistinct(b, m, k);
    }
  }

  lemma {:induction false} SameMilestones(start: Books, schedule: seq<Action>)
    requires BooksOk(start) && Clean(start, schedule)
    ensures |Execute(start, schedule).db.books.milestones| == |start.milestones|
  {
    if schedule != [] {
      var n := |schedule| - 1;
      SameMilestones(start, schedule[..n]);
      InvAlways(start, schedule[..n]);
      InvStep(Execute(start, schedule[..n]), schedule[n]);
    }
  }

  /** A live invoice belongs to at most one milestone, and its submit, cancel or trash always
      reaches that milestone although discovery reads an older snapshot. */
  lemma LiveInvoiceReachesItsMilestone(start: Books, schedule: seq<Action>, w: WorkerId, m: MilestoneId)
    requires BooksOk(start) && Clean(start, schedule)
    requires var s := Execute(start, schedule);
      && w in s.requests && s.requests[w].pc.Ready? && s.requests[w].pc.effect.Moves?
      && LiveInvoice(s.db.books.invoices, s.requests[w].pc.effect.i)
      && m < |s.db.books.milestones| && PointsAt(s.db.books, m, s.requests[w].pc.effect.i)
    ensures Execute(start, schedule).requests[w].pc.effect.claim == Some(m)
  {
    InvAlways(start, schedule);
    var s := Execute(start, schedule);
    assert RequestOk(s.db, w, s.requests[w]);
    var claim := s.requests[w].pc.effect.claim;
    if claim.Some? && claim.value != m {
      PointersAreDistinct(s.db.books, m, claim.value);
    }
  }

  /** The invoice a document event or an amendment is about. */
  function About(e: Effect): Option<InvoiceId> {
    match e
    case Creates(from, _) => from
    case Moves(i, _, _) => Some(i)
    case Rewrites(_, _) => None
    case Repairs(_) => None
  }

  /** A stale event changes nothing: when a document event or an amendment commits, every
      milestone that does not point at its invoice at that moment keeps its row, whatever
      the event discovered before. */
  lemma StaleEventsChangeNothing(start: Books, schedule: seq<Action>, w: WorkerId, m: MilestoneId)
    requires BooksOk(start) && Clean(start, schedule)
    requires var s := Execute(start, schedule);
      && w in s.requests && s.requests[w].pc.Ready? && About(s.requests[w].pc.effect).Some?
      && m < |s.db.books.milestones|
      && s.db.books.milestones[m].invoice != About(s.requests[w].pc.effect)
    ensures var s := Execute(start, schedule);
      var t := Apply(s, Commit(w));
      |t.db.books.milestones| == |s.db.books.milestones| && t.db.books.milestones[m] == s.db.books.milestones[m]
  {
    InvAlways(start, schedule);
    var s := Execute(start, schedule);
    CommitAboutOthers(s.db, w, s.requests[w], m);
  }

  lemma CommitAboutOthers(db: Database, w: WorkerId, x: Request, m: MilestoneId)
    requires RequestOk(db, w, x) && x.pc.Ready? && About(x.pc.effect).Some?
    requires m < |db.books.milestones| && db.books.milestones[m].invoice != About(x.pc.effect)
    ensures var after := Move(db, x, Commit(w)).0.books;
      |after.milestones| == |db.books.milestones| && after.milestones[m] == db.books.milestones[m]
  {
    TouchesOnlyItsRows(db, w, x.pc.effect, m);
  }

  /** In every reachable state the check before a deletion passes exactly when the milestone
      points at no live invoice. */
  lemma DeletableMeansNoLiveInvoice(start: Books, schedule: seq<Action>, m: MilestoneId)
    requires BooksOk(start) && Clean(start, schedule) && m < |Execute(start, schedule).db.books.milestones|
    ensures var b := Execute(start, schedule).db.books;
      !Active(b.milestones[m]) <==> forall i: InvoiceId :: PointsAt(b, m, i) ==> !LiveInvoice(b.invoices, i)
  {
    InvAlways(start, schedule);
    InactiveMeansNoLiveInvoice(Execute(start, schedule).db.books, m);
  }

  /** When a document event gets its invoice row: if the row has the docstatus its document shows,
      and drafts are submitted or deleted, submitted invoices cancelled, cancelled ones deleted. */
  lemma InvoiceLockMeans(db: Database, x: Request, w: WorkerId)
    requires x.pc.Opened? && x.call.DocCall? && InvoiceRow(x.call.i) !in db.locks
    requires x.call.i < |x.snap.invoices| && x.call.i < |db.books.invoices|
    ensures var (db', x') := Move(db, x, LockInvoice(w));
      var status, to := db.books.invoices[x.call.i].docstatus, x.call.to;
      && db'.books == db.books
      && x'.pc == if x.snap.invoices[x.call.i].docstatus == status
                    && ((status == DraftDoc && (to == SubmittedDoc || to == DeletedDoc))
                        || (status == SubmittedDoc && to == CancelledDoc)
                        || (status == CancelledDoc && to == DeletedDoc)) then HasInvoice
                  else Aborted
  {
  }

  /** What a request that holds its rows prepares, in the fields of the locked row. */
  lemma DecideMeans(db: Database, x: Request, w: WorkerId)
    requires x.pc.HasMilestone? && x.pc.m < |db.books.milestones|
    ensures var b, m := db.books, x.pc.m;
      var row, pc := b.milestones[m], Move(db, x, Decide(w)).1.pc;
      var fits := row.billing == PercentOfBudget ==>
        Round3(Round3(Reserved(b.milestones, row.project, Some(m))) + Round3(row.percent)) <= 100.0;
      match x.call
      case GenerateCall(_) =>
        pc == if row.completed && row.billing != NoBilling && row.status == NotInvoiced && fits then Ready(Creates(None, Some(m)))
              else Aborted
      case AmendCall(f) =>
        pc == if row.invoice != Some(f) then Ready(Creates(Some(f), None))
              else if fits then Ready(Creates(Some(f), Some(m)))
              else Aborted
      case DocCall(i, to) => pc == Ready(Moves(i, to, if row.invoice == Some(i) then Some(m) else None))
      case EditCall(_, edit) =>
        pc == if row.status == NotInvoiced && edit.percent >= 0.0 then
                Ready(Rewrites(m, edit.(status := row.status, invoice := row.invoice)))
              else Aborted
      case _ => true
  {
    hide Round3, Reserved;
  }

  predicate Ended(pc: Pc) {
    pc.Committed? || pc.Aborted?
  }

  predicate EndedIsFree(s: State, w: WorkerId, r: Row) {
    w in s.requests && Ended(s.requests[w].pc) ==> !Holds(s.db, w, r)
  }

  lemma EndingReleases(db: Database, x: Request, a: Action, r: Row)
    requires Ended(x.pc) ==> !Holds(db, a.w, r)
    ensures Ended(Move(db, x, a).1.pc) ==> !Holds(Move(db, x, a).0, a.w, r)
  {
    hide Discovers, Fresh, Legal;
  }

  lemma OthersLockNothing(db: Database, x: Request, a: Action, w: WorkerId, r: Row)
    requires w != a.w && !Holds(db, w, r)
    ensures !Holds(Move(db, x, a).0, w, r)
  {
    hide Write, Decision, Discovers, EffectFits, AfterDiscovery, ProjectFirst, MilestoneNext, Fresh, Legal;
  }

  lemma FreeStep(s: State, a: Action, w: WorkerId, r: Row)
    requires EndedIsFree(s, w, r)
    ensures EndedIsFree(Apply(s, a), w, r)
  {
    hide Move;
    if a.w in s.requests {
      if w == a.w {
        EndingReleases(s.db, s.requests[w], a, r);
      } else if w in s.requests && Ended(s.requests[w].pc) {
        OthersLockNothing(s.db, s.requests[a.w], a, w, r);
      }
    }
  }

  lemma {:induction false} FreeAlways(start: Books, schedule: seq<Action>, w: WorkerId, r: Row)
    ensures EndedIsFree(Execute(start, schedule), w, r)
  {
    if schedule != [] {
      FreeAlways(start, schedule[..|schedule| - 1], w, r);
      FreeStep(Execute(start, schedule[..|schedule| - 1]), schedule[|schedule| - 1], w, r);
    }
  }

  /** A request that committed or was refused has given every lock back. */
  lemma EndedHoldsNothing(start: Books, schedule: seq<Action>, w: WorkerId, r: Row)
    requires var s := Execute(start, schedule);
      w in s.requests && (s.requests[w].pc.Committed? || s.requests[w].pc.Aborted?)
    ensures var locks := Execute(start, schedule).db.locks; r in locks ==> locks[r] != w
  {
    FreeAlways(start, schedule, w, r);
  }

  lemma StepAfterEnd(s: State, a: Action, w: WorkerId)
    requires w in s.requests && (s.requests[w].pc.Committed? || s.requests[w].pc.Aborted?)
    ensures w in Apply(s, a).requests && Apply(s, a).requests[w] == s.requests[w]
  {
    hide Write, Decision, Discovers, EffectFits, AfterDiscovery;
  }

  /** A request that committed or was refused does nothing more. */
  lemma {:induction false} EndIsFinal(start: Books, schedule: seq<Action>, later: seq<Action>, w: WorkerId)
    requires var s := Execute(start, schedule);
      w in s.requests && (s.requests[w].pc.Committed? || s.requests[w].pc.Aborted?)
    ensures var s, t := Execute(start, schedule), Execute(start, schedule + later);
      w in t.requests && t.requests[w] == s.requests[w]
  {
    if later == [] {
      assert schedule + later == schedule;
    } else {
      var whole, front := schedule + later, later[..|later| - 1];
      assert whole[..|whole| - 1] == schedule + front;
      EndIsFinal(start, schedule, front, w);
      StepAfterEnd(Execute(start, schedule + front), later[|later| - 1], w);
    }
  }

  /** A request may raise or die at any point before its end: it writes nothing, and its locks alone
      are given back. */
  lemma DeathReleases(s: State, w: WorkerId, r: Row)
    requires w in s.requests && !s.requests[w].pc.Committed? && !s.requests[w].pc.Aborted?
    ensures var t := Apply(s, Abort(w));
      && t.requests == s.requests[w := s.requests[w].(pc := Aborted)] && t.db.books == s.db.books
      && (r in t.db.locks <==> r in s.db.locks && s.db.locks[r] != w)
      && (r in t.db.locks ==> t.db.locks[r] == s.db.locks[r])
  {
  }

  /** The reservation check of a generator still holds when it commits. */
  lemma ReservationHoldsAtCommit(start: Books, schedule: seq<Action>, w: WorkerId)
    requires BooksOk(start) && Clean(start, schedule)
    requires var s := Execute(start, schedule);
      w in s.requests && s.requests[w].pc.Ready? && s.requests[w].pc.effect.Creates? && s.requests[w].pc.effect.claim.Some?
    ensures var s := Execute(start, schedule);
      var m := s.requests[w].pc.effect.claim.value;
      && m < |s.db.books.milestones| && !Active(s.db.books.milestones[m]) && HasCapacity(s.db.books.milestones, m)
      && (s.requests[w].pc.effect.amendedFrom.None? ==>
            s.db.books.milestones[m].completed && s.db.books.milestones[m].billing != NoBilling)
      && Apply(s, Commit(w)).db.books.milestones[m].invoice == Some(|s.db.books.invoices|)
      && Apply(s, Commit(w)).db.books.milestones[m].status == Draft
  {
    InvAlways(start, schedule);
    var s := Execute(start, schedule);
    CommitClaims(s.db, w, s.requests[w]);
  }

  lemma CommitClaims(db: Database, w: WorkerId, x: Request)
    requires RequestOk(db, w, x) && x.pc.Ready? && x.pc.effect.Creates? && x.pc.effect.claim.Some?
    ensures var b, m := db.books, x.pc.effect.claim.value;
      var after := Move(db, x, Commit(w)).0.books;
      && m < |b.milestones| && !Active(b.milestones[m]) && HasCapacity(b.milestones, m)
      && (x.pc.effect.amendedFrom.None? ==> b.milestones[m].completed && b.milestones[m].billing != NoBilling)
      && m < |after.milestones| && after.milestones[m].invoice == Some(|b.invoices|) && after.milestones[m].status == Draft
  {
  }

  // ----- what the source leaves to its callers -----

  /** The bulk repair leaves a correct milestone alone exactly when its snapshot shows the
      pointed invoice with its present docstatus. */
  lemma SnapshotRepairIsRight(b: Books, seen: seq<Invoice>, m: MilestoneId, i: InvoiceId)
    requires BooksOk(b) && PointsAt(b, m, i) && Exists(b.invoices, i)
    ensures Repaired(b, seen).milestones[m] == b.milestones[m]
       <==> i < |seen| && seen[i].docstatus == b.invoices[i].docstatus
  {
    assert Projects(b, m);
  }

  /** Changing the percentage of an active milestone keeps its project within a limit exactly
      when the new percentage still fits beside the others. */
  lemma ActiveEditFits(b: Books, m: MilestoneId, percent: real, limit: real)
    requires BooksOk(b) && m < |b.milestones| && Active(b.milestones[m]) && b.milestones[m].billing == PercentOfBudget
    ensures var p := b.milestones[m].project;
      Reserved(b.milestones[m := b.milestones[m].(percent := percent)], p, None) <= limit
      <==> Reserved(b.milestones, p, Some(m)) + percent <= limit
  {
    var p := b.milestones[m].project;
    ReservedAfterUpdate(b.milestones, m, b.milestones[m].(percent := percent), p, None);
    ReservedWithout(b.milestones, p, m);
  }
}
