/** Expense generations that run side by side, among the life of the invoices they draft and
    edits of everything they read. A generation discovers parents from its snapshot, then locks
    parents and details, then the types, then the invoices its details point at, checks each
    group once it has it, and drafts and stamps when it commits. Within a group the rows are
    taken in any order, which only adds schedules. */
module ExpenseProtocol {
  import opened Basics
  import opened Names
  import opened ExpenseReservation

  type WorkerId = nat

  /** What an invoice bills, and whether it was amended from a cancelled one. */
  datatype Bill = Bill(sources: set<DetailId>, amendment: bool)

  datatype Lock = ClaimLock(c: ClaimId) | DetailLock(d: DetailId) | TypeLock(e: TypeId) | InvoiceLock(i: InvoiceId)

  /** The group of rows a generation waits for. */
  datatype Stage = Sources | Types | Invoices

  datatype Pc =
    | Locking(stage: Stage)
    | Ready(answer: seq<Source>)  // every check passed; what the guard answered
    | Committed
    | Aborted

  datatype Request = Request(names: seq<DetailId>, project: Option<ProjectId>, seen: map<DetailId, ClaimId>, pc: Pc)

  /** `bills` remembers every invoice there ever was; a name is never used twice. */
  datatype Database = Database(tables: Tables, bills: map<InvoiceId, Bill>, locks: map<Lock, WorkerId>)

  datatype State = State(db: Database, requests: map<WorkerId, Request>)

  datatype Action =
    | Open(w: WorkerId, names: seq<DetailId>, project: Option<ProjectId>)
    | LockRow(w: WorkerId, l: Lock)
    | Check(w: WorkerId)
    | Commit(w: WorkerId, invoice: InvoiceId)
    | Abort(w: WorkerId)
    | Submit(invoice: InvoiceId)
    | Cancel(invoice: InvoiceId)
    | Delete(invoice: InvoiceId)
    | Amend(invoice: InvoiceId, draft: InvoiceId)
    | EditDetail(d: DetailId, row: DetailRow)
    | DropDetail(d: DetailId)
    | EditClaim(c: ClaimId, claim: ClaimRow)
    | DropClaim(c: ClaimId)
    | EditType(e: TypeId, kind: TypeRow)
    | DropType(e: TypeId)

  function Released(db: Database, w: WorkerId): Database {
    db.(locks := map l | l in db.locks && db.locks[l] != w :: db.locks[l])
  }

  predicate Holds(db: Database, w: WorkerId, l: Lock) {
    l in db.locks && db.locks[l] == w
  }

  ghost predicate HoldsAll(db: Database, w: WorkerId, rows: set<Lock>) {
    forall l :: l in rows ==> Holds(db, w, l)
  }

  /** Draft or submitted. */
  predicate LiveBill(db: Database, i: InvoiceId) {
    i in db.bills && i in db.tables.invoices && db.tables.invoices[i] < 2
  }

  function Members(names: seq<DetailId>): set<DetailId> {
    set d | d in names
  }

  /** The parents a generation discovers without locks. */
  function Discovered(db: Database, names: seq<DetailId>): map<DetailId, ClaimId> {
    map d | d in names && d in db.tables.details :: db.tables.details[d].parent
  }

  /** The draft of a generation, its stamps and its lines. */
  function Drafted(db: Database, names: seq<DetailId>, invoice: InvoiceId): Database {
    db.(tables := Stamp(db.tables, names, invoice), bills := db.bills[invoice := Bill(Members(names), false)])
  }

  function TypeRows(t: Tables, names: seq<DetailId>): set<Lock> {
    set d | d in names && d in t.details && t.details[d].expenseType.Some? :: TypeLock(t.details[d].expenseType.value)
  }

  function InvoiceRows(t: Tables, names: seq<DetailId>): set<Lock> {
    set d | d in names && d in t.details && t.details[d].invoice.Some? :: InvoiceLock(t.details[d].invoice.value)
  }

  /** The rows the guard takes in each group, as far as it knows them by then. */
  function Rows(t: Tables, x: Request, stage: Stage): set<Lock> {
    match stage
    case Sources => (set d | d in x.seen :: ClaimLock(x.seen[d])) + (set d | d in x.names :: DetailLock(d))
    case Types => TypeRows(t, x.names)
    case Invoices => InvoiceRows(t, x.names)
  }

  function Answer(t: Tables, names: seq<DetailId>): seq<Source>
    requires forall d :: d in names ==> d in t.details && t.details[d].parent in t.claims
  {
    seq(|names|, k requires 0 <= k < |names| => SourceOf(t, names[k]))
  }

  /** Where the checks of a group lead once its rows are locked. */
  ghost function Checked(t: Tables, x: Request, stage: Stage): Pc {
    var first := FirstFailure(t, x.seen, x.names, x.project);
    match stage
    case Sources =>
      if first == Some(Missing) || first == Some(ChangedParent) || first == Some(NotInvoiceable) then Aborted else Locking(Types)
    case Types => if first == Some(PolicyBlocks) then Aborted else Locking(Invoices)
    case Invoices =>
      if first.Some? then Aborted else
      PassedMeansBillable(t, x.seen, x.names, x.project);
      Ready(Answer(t, x.names))
  }

  /** One step of a generation. A step whose guard does not hold changes nothing. */
  ghost function Move(db: Database, x: Request, a: Action): (Database, Request) {
    match a
    case LockRow(w, l) =>
      if !x.pc.Locking? || l !in Rows(db.tables, x, x.pc.stage) || (l in db.locks && !Holds(db, w, l)) then (db, x)
      else (db.(locks := db.locks[l := w]), x)
    case Check(w) =>
      if !x.pc.Locking? || !HoldsAll(db, w, Rows(db.tables, x, x.pc.stage)) then (db, x) else
      var next := Checked(db.tables, x, x.pc.stage);
      (if next.Aborted? then Released(db, w) else db, x.(pc := next))
    case Commit(w, i) =>
      if !x.pc.Ready? || i in db.bills then (db, x)
      else (Released(Drafted(db, x.names, i), w), x.(pc := Committed))
    case Abort(w) =>
      if x.pc.Committed? || x.pc.Aborted? then (db, x) else (Released(db, w), x.(pc := Aborted))
    case _ => (db, x)
  }

  function SetInvoice(db: Database, i: InvoiceId, docstatus: nat): Database {
    db.(tables := db.tables.(invoices := db.tables.invoices[i := docstatus]))
  }

  function SetDetails(db: Database, details: map<DetailId, DetailRow>): Database {
    db.(tables := db.tables.(details := details))
  }

  /** Edits never touch the pointer of a row; a new row is none that was billed before, and
      points at nothing unknown. */
  predicate EditFits(db: Database, d: DetailId, row: DetailRow) {
    && DetailLock(d) !in db.locks
    && (if d in db.tables.details then row.invoice == db.tables.details[d].invoice
        else
          && (row.invoice.Some? ==> row.invoice.value in db.bills)
          && forall i :: i in db.bills ==> d !in db.bills[i].sources)
  }

  /** A transaction of somebody else, committed at once: it waits for the rows it writes. */
  function Outside(db: Database, a: Action): Database {
    var t := db.tables;
    match a
    case Submit(i) => if Unlocked(db, InvoiceLock(i)) && i in t.invoices && t.invoices[i] == 0 then SetInvoice(db, i, 1) else db
    case Cancel(i) => if Unlocked(db, InvoiceLock(i)) && i in t.invoices && t.invoices[i] == 1 then SetInvoice(db, i, 2) else db
    case Delete(i) =>
      if Unlocked(db, InvoiceLock(i)) && i in t.invoices && t.invoices[i] != 1 then
        db.(tables := t.(invoices := t.invoices - {i}))
      else db
    case Amend(i, j) =>
      if i in db.bills && i in t.invoices && t.invoices[i] == 2 && j !in db.bills then
        SetInvoice(db, j, 0).(bills := db.bills[j := Bill(db.bills[i].sources, true)])
      else db
    case EditDetail(d, row) => if EditFits(db, d, row) then SetDetails(db, t.details[d := row]) else db
    case DropDetail(d) => if Unlocked(db, DetailLock(d)) then SetDetails(db, t.details - {d}) else db
    case EditClaim(c, claim) => if Unlocked(db, ClaimLock(c)) then db.(tables := t.(claims := t.claims[c := claim])) else db
    case DropClaim(c) => if Unlocked(db, ClaimLock(c)) then db.(tables := t.(claims := t.claims - {c})) else db
    case EditType(e, kind) => if Unlocked(db, TypeLock(e)) then db.(tables := t.(types := t.types[e := kind])) else db
    case DropType(e) => if Unlocked(db, TypeLock(e)) then db.(tables := t.(types := t.types - {e})) else db
    case _ => db
  }

  predicate Unlocked(db: Database, l: Lock) {
    l !in db.locks
  }

  /** Drafts are submitted and deleted, submitted invoices cancelled, cancelled ones amended and
      deleted, and rows edited or dropped, each when nobody has the row locked; the pointer of a
      detail is left alone. Anything else changes nothing. */
  lemma OutsideMeans(db: Database, a: Action)
    ensures var t, after := db.tables, Outside(db, a);
      && after.locks == db.locks && (!a.Amend? ==> after.bills == db.bills)
      && match a
      case Submit(i) =>
        after.tables == if InvoiceLock(i) !in db.locks && i in t.invoices && t.invoices[i] == 0
                        then t.(invoices := t.invoices[i := 1]) else t
      case Cancel(i) =>
        after.tables == if InvoiceLock(i) !in db.locks && i in t.invoices && t.invoices[i] == 1
                        then t.(invoices := t.invoices[i := 2]) else t
      case Delete(i) =>
        after.tables == if InvoiceLock(i) !in db.locks && !(i in t.invoices && t.invoices[i] == 1)
                        then t.(invoices := t.invoices - {i}) else t
      case Amend(i, j) =>
        if i in db.bills && i in t.invoices && t.invoices[i] == 2 && j !in db.bills then
          && after.tables == t.(invoices := t.invoices[j := 0])
          && after.bills == db.bills[j := Bill(db.bills[i].sources, true)]
        else after == db
      case EditDetail(d, row) =>
        && (DetailLock(d) in db.locks ==> after == db)
        && (DetailLock(d) !in db.locks && d in t.details && row.invoice == t.details[d].invoice ==>
              after.tables == t.(details := t.details[d := row]))
        && (d in t.details && row.invoice != t.details[d].invoice ==> after == db)
      case DropDetail(d) => after.tables == if DetailLock(d) in db.locks then t else t.(details := t.details - {d})
      case EditClaim(c, claim) => after.tables == if ClaimLock(c) in db.locks then t else t.(claims := t.claims[c := claim])
      case DropClaim(c) => after.tables == if ClaimLock(c) in db.locks then t else t.(claims := t.claims - {c})
      case EditType(e, kind) => after.tables == if TypeLock(e) in db.locks then t else t.(types := t.types[e := kind])
      case DropType(e) => after.tables == if TypeLock(e) in db.locks then t else t.(types := t.types - {e})
      case _ => after == db
  {
  }

  predicate ByWorker(a: Action) {
    a.Open? || a.LockRow? || a.Check? || a.Commit? || a.Abort?
  }

  ghost function Apply(s: State, a: Action): State {
    if !ByWorker(a) then State(Outside(s.db, a), s.requests)
    else if a.w in s.requests then
      var (db, x) := Move(s.db, s.requests[a.w], a);
      State(db, s.requests[a.w := x])
    else if a.Open? then
      s.(requests := s.requests[a.w := Request(SortedNames(a.names), a.project, Discovered(s.db, a.names), Locking(Sources))])
    else s
  }

  ghost function Execute(start: Database, schedule: seq<Action>): State {
    if schedule == [] then State(start, map[])
    else Apply(Execute(start, schedule[..|schedule| - 1]), schedule[|schedule| - 1])
  }

  // ----- the invariant -----

  /** No source is on two live invoices. */
  ghost predicate Exclusive(db: Database) {
    forall i, j, d :: LiveBill(db, i) && LiveBill(db, j) && d in db.bills[i].sources && d in db.bills[j].sources ==> i == j
  }

  /** Every source of a live draft of a generation points back at it. */
  ghost predicate Tied(db: Database) {
    forall i, d :: LiveBill(db, i) && !db.bills[i].amendment && d in db.bills[i].sources && d in db.tables.details ==>
      db.tables.details[d].invoice == Some(i)
  }

  ghost predicate Known(db: Database) {
    && (forall d :: d in db.tables.details && db.tables.details[d].invoice.Some? ==>
          db.tables.details[d].invoice.value in db.bills)
    && (forall i :: i in db.tables.invoices ==> i in db.bills)
  }

  ghost predicate DatabaseOk(db: Database) {
    Tied(db) && Known(db)
  }

  /** `d` passed the checks of the first group, */
  ghost predicate SourceStands(t: Tables, x: Request, d: DetailId) {
    d in t.details && ParentStands(t, x.seen, d) && Invoiceable(t, d, x.project)
  }

  /** and of the second one. */
  ghost predicate TypeStands(t: Tables, x: Request, d: DetailId) {
    SourceStands(t, x, d) && TypeOf(t, d).policy != NotBillable
  }

  ghost predicate RequestOk(db: Database, w: WorkerId, x: Request) {
    match x.pc
    case Locking(Sources) => true
    case Locking(Types) =>
      HoldsAll(db, w, Rows(db.tables, x, Sources)) && forall d :: d in x.names ==> SourceStands(db.tables, x, d)
    case Locking(Invoices) =>
      && HoldsAll(db, w, Rows(db.tables, x, Sources)) && HoldsAll(db, w, Rows(db.tables, x, Types))
      && forall d :: d in x.names ==> TypeStands(db.tables, x, d)
    case Ready(answer) => ReadyOk(db, w, x, answer)
    case Committed => true
    case Aborted => true
  }

  ghost predicate ReadyOk(db: Database, w: WorkerId, x: Request, answer: seq<Source>) {
    && HoldsAll(db, w, Rows(db.tables, x, Sources)) && HoldsAll(db, w, Rows(db.tables, x, Types))
    && HoldsAll(db, w, Rows(db.tables, x, Invoices))
    && (forall d :: d in x.names ==> TypeStands(db.tables, x, d) && !HasLiveInvoice(db.tables, d))
    && answer == Answer(db.tables, x.names)
  }

  ghost predicate Inv(s: State) {
    DatabaseOk(s.db) && forall w :: w in s.requests ==> RequestOk(s.db, w, s.requests[w])
  }

  // ----- one step -----

  lemma DraftedOk(db: Database, w: WorkerId, x: Request, i: InvoiceId)
    requires DatabaseOk(db) && RequestOk(db, w, x) && x.pc.Ready? && i !in db.bills
    ensures DatabaseOk(Drafted(db, x.names, i))
  {
    var after := Drafted(db, x.names, i);
    forall j, d | LiveBill(after, j) && !after.bills[j].amendment && d in after.bills[j].sources && d in after.tables.details
      ensures after.tables.details[d].invoice == Some(j)
    {
      if j != i {
        assert LiveBill(db, j);
      }
    }
  }

  lemma CheckedIsOk(db: Database, w: WorkerId, x: Request)
    requires RequestOk(db, w, x) && x.pc.Locking? && HoldsAll(db, w, Rows(db.tables, x, x.pc.stage))
    ensures var next := Checked(db.tables, x, x.pc.stage); !next.Aborted? ==> RequestOk(db, w, x.(pc := next))
  {
    hide Holds, Invoiceable, TypeOf, HasLiveInvoice, ParentStands;
    if FirstFailure(db.tables, x.seen, x.names, x.project).None? {
      forall d | d in x.names ensures TypeStands(db.tables, x, d) && !HasLiveInvoice(db.tables, d) {
        PassedMeans(db.tables, x.seen, x.names, x.project, d);
      }
    }
  }

  lemma MoverStaysOk(db: Database, x: Request, a: Action)
    requires ByWorker(a) && DatabaseOk(db) && RequestOk(db, a.w, x)
    ensures var (db', x') := Move(db, x, a); DatabaseOk(db') && RequestOk(db', a.w, x')
  {
    hide Checked, Stamp, Invoiceable, TypeOf, ParentStands;
    if a.Commit? && x.pc.Ready? && a.invoice !in db.bills {
      DraftedOk(db, a.w, x, a.invoice);
    } else if a.Check? && x.pc.Locking? && HoldsAll(db, a.w, Rows(db.tables, x, x.pc.stage)) {
      CheckedIsOk(db, a.w, x);
    }
  }

  /** The rows that `y` has locked are the same in both tables. */
  ghost predicate SameRows(db: Database, after: Database, v: WorkerId) {
    && (forall l :: Holds(db, v, l) ==> Holds(after, v, l))
    && (forall d: DetailId :: Holds(db, v, DetailLock(d)) && d in db.tables.details ==>
          d in after.tables.details && after.tables.details[d] == db.tables.details[d])
    && (forall c: ClaimId :: Holds(db, v, ClaimLock(c)) && c in db.tables.claims ==>
          c in after.tables.claims && after.tables.claims[c] == db.tables.claims[c])
    && (forall e: TypeId :: Holds(db, v, TypeLock(e)) ==>
          (e in after.tables.types <==> e in db.tables.types)
          && (e in db.tables.types ==> after.tables.types[e] == db.tables.types[e]))
    && (forall i: InvoiceId :: Holds(db, v, InvoiceLock(i)) && i in db.bills ==>
          (i in after.tables.invoices <==> i in db.tables.invoices)
          && (i in db.tables.invoices ==> after.tables.invoices[i] == db.tables.invoices[i]))
  }

  lemma SourceStays(db: Database, after: Database, v: WorkerId, y: Request, d: DetailId)
    requires SameRows(db, after, v) && HoldsAll(db, v, Rows(db.tables, y, Sources))
    requires d in y.names && SourceStands(db.tables, y, d)
    ensures SourceStands(after.tables, y, d) && after.tables.details[d] == db.tables.details[d]
    ensures var parent := db.tables.details[d].parent;
      parent in after.tables.claims && after.tables.claims[parent] == db.tables.claims[parent]
  {
    assert Holds(db, v, DetailLock(d));
    assert Holds(db, v, ClaimLock(y.seen[d]));
  }

  lemma TypeStays(db: Database, after: Database, v: WorkerId, y: Request, d: DetailId)
    requires SameRows(db, after, v) && HoldsAll(db, v, Rows(db.tables, y, Sources)) && HoldsAll(db, v, Rows(db.tables, y, Types))
    requires d in y.names && TypeStands(db.tables, y, d)
    ensures TypeStands(after.tables, y, d) && TypeOf(after.tables, d) == TypeOf(db.tables, d)
  {
    SourceStays(db, after, v, y, d);
    if db.tables.details[d].expenseType.Some? {
      assert Holds(db, v, TypeLock(db.tables.details[d].expenseType.value));
    }
  }

  lemma AnswerStays(db: Database, after: Database, v: WorkerId, y: Request, answer: seq<Source>)
    requires Known(db) && SameRows(db, after, v) && ReadyOk(db, v, y, answer)
    ensures ReadyOk(after, v, y, answer)
  {
    forall d | d in y.names
      ensures TypeStands(after.tables, y, d) && !HasLiveInvoice(after.tables, d)
      ensures SourceOf(after.tables, d) == SourceOf(db.tables, d) && after.tables.details[d] == db.tables.details[d]
    {
      SourceStays(db, after, v, y, d);
      TypeStays(db, after, v, y, d);
      InvoiceStays(db, after, v, y, d);
    }
    hide TypeOf, HasLiveInvoice, SourceStands, Known;
  }

  lemma InvoiceStays(db: Database, after: Database, v: WorkerId, y: Request, d: DetailId)
    requires Known(db) && SameRows(db, after, v) && HoldsAll(db, v, Rows(db.tables, y, Invoices))
    requires d in y.names && d in db.tables.details && d in after.tables.details
    requires after.tables.details[d] == db.tables.details[d]
    ensures HasLiveInvoice(after.tables, d) == HasLiveInvoice(db.tables, d)
  {
    if db.tables.details[d].invoice.Some? {
      assert Holds(db, v, InvoiceLock(db.tables.details[d].invoice.value));
    }
  }

  /** A request keeps what it checked as long as its locked rows stay the same. */
  lemma LockedStaysOk(db: Database, after: Database, v: WorkerId, y: Request)
    requires Known(db) && SameRows(db, after, v) && RequestOk(db, v, y)
    ensures RequestOk(after, v, y)
  {
    hide ParentStands, Invoiceable, TypeOf, HasLiveInvoice, Known;
    match y.pc
    case Locking(Types) =>
      forall d | d in y.names ensures SourceStands(after.tables, y, d) {
        SourceStays(db, after, v, y, d);
      }
    case Locking(Invoices) =>
      forall d | d in y.names ensures TypeStands(after.tables, y, d) && after.tables.details[d] == db.tables.details[d] {
        SourceStays(db, after, v, y, d);
        TypeStays(db, after, v, y, d);
      }
    case Ready(answer) => AnswerStays(db, after, v, y, answer);
    case _ =>
  }

  lemma OtherStaysOk(db: Database, x: Request, a: Action, v: WorkerId, y: Request)
    requires ByWorker(a) && DatabaseOk(db) && RequestOk(db, a.w, x) && RequestOk(db, v, y) && v != a.w
    ensures RequestOk(Move(db, x, a).0, v, y)
  {
    OthersRowsStay(db, x, a, v);
    LockedStaysOk(db, Move(db, x, a).0, v, y);
  }

  lemma OthersRowsStay(db: Database, x: Request, a: Action, v: WorkerId)
    requires ByWorker(a) && DatabaseOk(db) && RequestOk(db, a.w, x) && v != a.w
    ensures SameRows(db, Move(db, x, a).0, v)
  {
    if a.Commit? && x.pc.Ready? {
      DraftKeepsOthersRows(db, x, a.w, a.invoice, v);
    } else {
      hide Checked, RequestOk, DatabaseOk, Rows;
    }
  }

  lemma DraftKeepsOthersRows(db: Database, x: Request, w: WorkerId, i: InvoiceId, v: WorkerId)
    requires HoldsAll(db, w, Rows(db.tables, x, Sources)) && v != w
    ensures i !in db.bills ==> SameRows(db, Released(Drafted(db, x.names, i), w), v)
  {
    forall d | d in x.names ensures Holds(db, w, DetailLock(d)) {
      assert DetailLock(d) in Rows(db.tables, x, Sources);
    }
  }

  lemma OutsideRowsStay(db: Database, a: Action, v: WorkerId)
    ensures SameRows(db, Outside(db, a), v)
  {
  }

  lemma OutsideStaysOk(db: Database, a: Action, v: WorkerId, y: Request)
    requires DatabaseOk(db) && RequestOk(db, v, y)
    ensures RequestOk(Outside(db, a), v, y)
  {
    OutsideRowsStay(db, a, v);
    hide SameRows, RequestOk, Outside;
    LockedStaysOk(db, Outside(db, a), v, y);
  }

  lemma OutsideDatabaseOk(db: Database, a: Action)
    requires DatabaseOk(db)
    ensures DatabaseOk(Outside(db, a))
  {
    var after := Outside(db, a);
    forall i, d | LiveBill(after, i) && !after.bills[i].amendment && d in after.bills[i].sources && d in after.tables.details
      ensures after.tables.details[d].invoice == Some(i)
    {
      assert LiveBill(db, i);
    }
  }

  lemma InvStep(s: State, a: Action)
    requires Inv(s)
    ensures Inv(Apply(s, a))
  {
    if !ByWorker(a) {
      OutsideDatabaseOk(s.db, a);
      forall v | v in s.requests ensures RequestOk(Outside(s.db, a), v, s.requests[v]) {
        OutsideStaysOk(s.db, a, v, s.requests[v]);
      }
    } else if a.w in s.requests {
      var x := s.requests[a.w];
      MoverStaysOk(s.db, x, a);
      forall v | v in s.requests && v != a.w ensures RequestOk(Move(s.db, x, a).0, v, s.requests[v]) {
        OtherStaysOk(s.db, x, a, v, s.requests[v]);
      }
    }
  }

  lemma {:induction false} InvAlways(start: Database, schedule: seq<Action>)
    requires DatabaseOk(start)
    ensures Inv(Execute(start, schedule))
  {
    if schedule != [] {
      InvAlways(start, schedule[..|schedule| - 1]);
      InvStep(Execute(start, schedule[..|schedule| - 1]), schedule[|schedule| - 1]);
    }
  }

  predicate EndedIsFree(s: State, w: WorkerId, l: Lock) {
    w in s.requests && (s.requests[w].pc.Committed? || s.requests[w].pc.Aborted?) ==> !Holds(s.db, w, l)
  }

  lemma FreeStep(s: State, a: Action, w: WorkerId, l: Lock)
    requires EndedIsFree(s, w, l)
    ensures EndedIsFree(Apply(s, a), w, l)
  {
    hide FirstFailure, Answer, Rows, Stamp, EditFits;
  }

  lemma {:induction false} FreeAlways(start: Database, schedule: seq<Action>, w: WorkerId, l: Lock)
    ensures EndedIsFree(Execute(start, schedule), w, l)
  {
    if schedule != [] {
      FreeAlways(start, schedule[..|schedule| - 1], w, l);
      FreeStep(Execute(start, schedule[..|schedule| - 1]), schedule[|schedule| - 1], w, l);
    }
  }

  /** A generation that committed or was refused has given every lock back. */
  lemma EndedHoldsNothing(start: Database, schedule: seq<Action>, w: WorkerId, l: Lock)
    requires var s := Execute(start, schedule);
      w in s.requests && (s.requests[w].pc.Committed? || s.requests[w].pc.Aborted?)
    ensures var locks := Execute(start, schedule).db.locks; l in locks ==> locks[l] != w
  {
    FreeAlways(start, schedule, w, l);
  }

  lemma StepAfterEnd(s: State, a: Action, w: WorkerId)
    requires w in s.requests && (s.requests[w].pc.Committed? || s.requests[w].pc.Aborted?)
    ensures w in Apply(s, a).requests && Apply(s, a).requests[w] == s.requests[w]
  {
    hide Checked;
  }

  /** A generation that committed or was refused does nothing more. */
  lemma {:induction false} EndIsFinal(start: Database, schedule: seq<Action>, later: seq<Action>, w: WorkerId)
    requires var s := Execute(start, schedule);
      w in s.requests && (s.requests[w].pc.Committed? || s.requests[w].pc.Aborted?)
    ensures var s, t := Execute(start, schedule), Execute(start, schedule + later);
      w in t.requests && t.requests[w] == s.requests[w]
  {
    if later == [] {
      assert schedule + later == schedule;
    } else {
      var whole, front := schedule + later, later[..|later| - 1];
      assert whole[..|whole| - 1] == schedule + front;
      EndIsFinal(start, schedule, front, w);
      StepAfterEnd(Execute(start, schedule + front), later[|later| - 1], w);
    }
  }

  /** A generation may raise or die at any point before its end: it writes nothing, and its locks
      alone are given back. */
  lemma DeathReleases(s: State, w: WorkerId, l: Lock)
    requires w in s.requests && !s.requests[w].pc.Committed? && !s.requests[w].pc.Aborted?
    ensures var t := Apply(s, Abort(w));
      && t.requests == s.requests[w := s.requests[w].(pc := Aborted)]
      && t.db.tables == s.db.tables && t.db.bills == s.db.bills
      && (l in t.db.locks <==> l in s.db.locks && s.db.locks[l] != w)
      && (l in t.db.locks ==> t.db.locks[l] == s.db.locks[l])
  {
  }

  // ----- what is billed -----

  /** A generation starts with the distinct names it was asked for and the parents its snapshot
      shows, and waits for those. */
  lemma OpenMeans(s: State, w: WorkerId, names: seq<DetailId>, project: Option<ProjectId>, l: Lock)
    requires w !in s.requests
    ensures var t := Apply(s, Open(w, names, project));
      && w in t.requests && t.db == s.db && t.requests[w].project == project && t.requests[w].pc == Locking(Sources)
      && Ascending(t.requests[w].names) && (forall d :: d in t.requests[w].names <==> d in names)
      && (l in Rows(t.db.tables, t.requests[w], Sources) <==>
            match l
            case DetailLock(d) => d in names
            case ClaimLock(c) => exists d :: d in names && d in s.db.tables.details && s.db.tables.details[d].parent == c
            case _ => false)
  {
    var x := Apply(s, Open(w, names, project)).requests[w];
    if l.ClaimLock? && exists d :: d in names && d in s.db.tables.details && s.db.tables.details[d].parent == l.c {
      var d :| d in names && d in s.db.tables.details && s.db.tables.details[d].parent == l.c;
      assert d in x.seen && x.seen[d] == l.c;
    }
  }

  /** What a generation bills, it bills from the values its sources have when it commits: each is
      submitted and billable, under a submitted claim of the project, of a type that may be billed,
      and on no live invoice it points at. Nobody can change them in between. */
  lemma BilledExpensesAreBillable(start: Database, schedule: seq<Action>, w: WorkerId, i: InvoiceId, k: nat)
    requires DatabaseOk(start)
    requires var s := Execute(start, schedule);
      w in s.requests && s.requests[w].pc.Ready? && k < |s.requests[w].names| && i !in s.db.bills
    ensures var s, t := Execute(start, schedule), Apply(Execute(start, schedule), Commit(w, i));
      var x, now := s.requests[w], s.db.tables;
      var d, answer := x.names[k], x.pc.answer;
      && |answer| == |x.names| && Billable(now, x.seen, d, x.project, answer[k])
      && d in now.details && now.details[d].parent in now.claims
      && now.details[d].docstatus == 1 && now.details[d].billable && answer[k].amount == now.details[d].amount
      && now.claims[now.details[d].parent].docstatus == 1 && now.claims[now.details[d].parent].project == x.project
      && t.requests[w].pc == Committed && t.db.bills == s.db.bills[i := Bill(set n | n in x.names, false)]
      && t.db.tables.invoices == now.invoices[i := 0] && t.db.tables.claims == now.claims && t.db.tables.types == now.types
      && t.db.tables.details.Keys == now.details.Keys
      && t.db.tables.details[d] == now.details[d].(invoice := Some(i))
  {
    InvAlways(start, schedule);
    var s := Execute(start, schedule);
    var x := s.requests[w];
    assert RequestOk(s.db, w, x);
    ReadyMeansBillable(s.db, w, x, k);
  }

  lemma ReadyMeansBillable(db: Database, w: WorkerId, x: Request, k: nat)
    requires x.pc.Ready? && ReadyOk(db, w, x, x.pc.answer) && k < |x.names|
    ensures |x.pc.answer| == |x.names| && Billable(db.tables, x.seen, x.names[k], x.project, x.pc.answer[k])
  {
    assert TypeStands(db.tables, x, x.names[k]) && !HasLiveInvoice(db.tables, x.names[k]);
  }

  /** A generation that has the rows of a group goes on exactly if none of its sources is refused
      by the checks of that group. */
  lemma CheckMeans(start: Database, schedule: seq<Action>, w: WorkerId)
    requires DatabaseOk(start)
    requires var s := Execute(start, schedule);
      && w in s.requests && s.requests[w].pc.Locking?
      && forall l :: l in Rows(s.db.tables, s.requests[w], s.requests[w].pc.stage) ==> l in s.db.locks && s.db.locks[l] == w
    ensures var s := Execute(start, schedule);
      var x, pc := s.requests[w], Apply(s, Check(w)).requests[w].pc;
      var refused := (why: Refusal) => exists d :: d in x.names && Refuses(s.db.tables, x.seen, d, x.project, why);
      match x.pc.stage
      case Sources => pc == if refused(Missing) || refused(ChangedParent) || refused(NotInvoiceable) then Aborted else Locking(Types)
      case Types => pc == if refused(PolicyBlocks) then Aborted else Locking(Invoices)
      case Invoices => pc.Ready? == !refused(Reserved) && pc.Aborted? == refused(Reserved)
  {
    InvAlways(start, schedule);
    var s := Execute(start, schedule);
    var x := s.requests[w];
    assert RequestOk(s.db, w, x);
    CheckedMeans(s.db, w, x);
  }

  lemma CheckedMeans(db: Database, w: WorkerId, x: Request)
    requires x.pc.Locking? && RequestOk(db, w, x)
    ensures var t, pc := db.tables, Checked(db.tables, x, x.pc.stage);
      var refused := (why: Refusal) => exists d :: d in x.names && Refuses(t, x.seen, d, x.project, why);
      match x.pc.stage
      case Sources => pc == if refused(Missing) || refused(ChangedParent) || refused(NotInvoiceable) then Aborted else Locking(Types)
      case Types => pc == if refused(PolicyBlocks) then Aborted else Locking(Invoices)
      case Invoices => pc.Ready? == !refused(Reserved) && pc.Aborted? == refused(Reserved)
  {
    var t := db.tables;
    var first := FirstFailure(t, x.seen, x.names, x.project);
    FailureMeansRefused(t, x.seen, x.names, x.project);
    FailureMeansFirst(t, x.seen, x.names, x.project);
    if first == None {
      PassedMeansBillable(t, x.seen, x.names, x.project);
    }
  }

  // ----- exclusivity -----

  /** A live amendment carries one of the names: the guard, which follows the pointer of the
      detail, does not see it. */
  ghost predicate OnAmendment(db: Database, names: seq<DetailId>) {
    exists k, d :: LiveBill(db, k) && db.bills[k].amendment && d in names && d in db.bills[k].sources
  }

  /** A live invoice carries one of the sources. */
  ghost predicate OnLive(db: Database, sources: set<DetailId>) {
    exists k, d :: LiveBill(db, k) && d in sources && d in db.bills[k].sources
  }

  /** The step drafts an invoice for a source that a live amendment carries, or amends one whose
      source was billed again in the meantime. */
  ghost predicate BillsAgain(s: State, a: Action) {
    match a
    case Commit(w, i) =>
      w in s.requests && s.requests[w].pc.Ready? && i !in s.db.bills && OnAmendment(s.db, s.requests[w].names)
    case Amend(i, j) =>
      && i in s.db.bills && i in s.db.tables.invoices && s.db.tables.invoices[i] == 2 && j !in s.db.bills
      && OnLive(s.db, s.db.bills[i].sources)
    case _ => false
  }

  /** A new live invoice keeps the sources exclusive exactly when none of its own is on another. */
  lemma NewBill(db: Database, after: Database, i: InvoiceId)
    requires Known(db) && Exclusive(db) && i !in db.bills
    requires LiveBill(after, i)
    requires forall k :: k != i ==> (LiveBill(after, k) <==> LiveBill(db, k))
    requires forall k :: k in db.bills ==> k in after.bills && after.bills[k] == db.bills[k]
    ensures Exclusive(after) <==> !OnLive(db, after.bills[i].sources)
  {
    if OnLive(db, after.bills[i].sources) {
      var k, d :| LiveBill(db, k) && d in after.bills[i].sources && d in db.bills[k].sources;
      assert LiveBill(after, k) && d in after.bills[k].sources;
    } else {
      assert forall j, d :: LiveBill(db, j) && d in db.bills[j].sources ==> d !in after.bills[i].sources;
      forall k, j, d | LiveBill(after, k) && LiveBill(after, j) && d in after.bills[k].sources && d in after.bills[j].sources
        ensures k == j
      {
        assert k != i ==> LiveBill(db, k) && d in db.bills[k].sources;
        assert j != i ==> LiveBill(db, j) && d in db.bills[j].sources;
      }
    }
  }

  /** A live invoice that carries a checked source is an amendment. */
  lemma OnlyAmendmentsEscape(db: Database, w: WorkerId, x: Request)
    requires DatabaseOk(db) && RequestOk(db, w, x) && x.pc.Ready?
    ensures OnLive(db, Members(x.names)) <==> OnAmendment(db, x.names)
  {
    if k, d :| LiveBill(db, k) && d in x.names && d in db.bills[k].sources {
      assert TypeStands(db.tables, x, d) && !HasLiveInvoice(db.tables, d);
    }
    if k, d :| LiveBill(db, k) && db.bills[k].amendment && d in x.names && d in db.bills[k].sources {
      assert d in Members(x.names);
    }
  }

  lemma DraftIsExclusive(db: Database, w: WorkerId, x: Request, i: InvoiceId)
    requires DatabaseOk(db) && RequestOk(db, w, x) && x.pc.Ready? && i !in db.bills && Exclusive(db)
    ensures Exclusive(Released(Drafted(db, x.names, i), w)) <==> !OnAmendment(db, x.names)
  {
    OnlyAmendmentsEscape(db, w, x);
    NewBill(db, Released(Drafted(db, x.names, i), w), i);
  }

  lemma OutsideIsExclusive(db: Database, a: Action)
    requires DatabaseOk(db) && Exclusive(db) && !a.Amend?
    ensures Exclusive(Outside(db, a))
  {
    var after := Outside(db, a);
    forall k, j, d | LiveBill(after, k) && LiveBill(after, j) && d in after.bills[k].sources && d in after.bills[j].sources
      ensures k == j
    {
      assert LiveBill(db, k) && LiveBill(db, j);
    }
  }

  lemma QuietIsExclusive(db: Database, x: Request, a: Action)
    requires ByWorker(a) && Exclusive(db) && !(a.Commit? && x.pc.Ready? && a.invoice !in db.bills)
    ensures Exclusive(Move(db, x, a).0)
  {
    var after := Move(db, x, a).0;
    assert after.bills == db.bills && after.tables == db.tables;
    assert forall k :: LiveBill(after, k) <==> LiveBill(db, k);
  }

  lemma ExclusiveStep(s: State, a: Action)
    requires Inv(s) && Exclusive(s.db)
    ensures Exclusive(Apply(s, a).db) <==> !BillsAgain(s, a)
  {
    if !ByWorker(a) {
      if a.Amend? {
        AmendIsExclusive(s.db, a.invoice, a.draft);
      } else {
        OutsideIsExclusive(s.db, a);
      }
    } else if a.w in s.requests {
      var x := s.requests[a.w];
      assert RequestOk(s.db, a.w, x);
      if a.Commit? && x.pc.Ready? && a.invoice !in s.db.bills {
        DraftIsExclusive(s.db, a.w, x, a.invoice);
      } else {
        QuietIsExclusive(s.db, x, a);
      }
    }
  }

  lemma AmendIsExclusive(db: Database, i: InvoiceId, j: InvoiceId)
    requires DatabaseOk(db) && Exclusive(db)
    ensures Exclusive(Outside(db, Amend(i, j))) <==>
      !(i in db.bills && i in db.tables.invoices && db.tables.invoices[i] == 2 && j !in db.bills && OnLive(db, db.bills[i].sources))
  {
    if i in db.bills && i in db.tables.invoices && db.tables.invoices[i] == 2 && j !in db.bills {
      NewBill(db, Outside(db, Amend(i, j)), j);
    }
  }

  ghost predicate AlwaysExclusive(start: Database, schedule: seq<Action>) {
    forall n :: 0 <= n <= |schedule| ==> Exclusive(Execute(start, schedule[..n]).db)
  }

  ghost predicate NeverBillsAgain(start: Database, schedule: seq<Action>) {
    forall n :: 0 <= n < |schedule| ==> !BillsAgain(Execute(start, schedule[..n]), schedule[n])
  }

  lemma {:induction false} ExclusiveUpTo(start: Database, schedule: seq<Action>, n: nat)
    requires DatabaseOk(start) && Exclusive(start) && n <= |schedule|
    requires NeverBillsAgain(start, schedule)
    ensures Exclusive(Execute(start, schedule[..n]).db)
  {
    if n > 0 {
      ExclusiveUpTo(start, schedule, n - 1);
      InvAlways(start, schedule[..n - 1]);
      assert schedule[..n][..n - 1] == schedule[..n - 1];
      ExclusiveStep(Execute(start, schedule[..n - 1]), schedule[n - 1]);
    }
  }

  /** Whatever interleaves, no expense source is ever on two live invoices, exactly when no
      generation drafts a source that a live amendment carries and no invoice is amended while
      one of its sources is on a live invoice. */
  lemma SourcesAreExclusiveIff(start: Database, schedule: seq<Action>)
    requires DatabaseOk(start) && Exclusive(start)
    ensures AlwaysExclusive(start, schedule) <==> NeverBillsAgain(start, schedule)
  {
    if NeverBillsAgain(start, schedule) {
      forall n | 0 <= n <= |schedule| ensures Exclusive(Execute(start, schedule[..n]).db) {
        ExclusiveUpTo(start, schedule, n);
      }
    } else {
      var n :| 0 <= n < |schedule| && BillsAgain(Execute(start, schedule[..n]), schedule[n]);
      InvAlways(start, schedule[..n]);
      assert schedule[..n + 1][..n] == schedule[..n];
      if Exclusive(Execute(start, schedule[..n]).db) {
        ExclusiveStep(Execute(start, schedule[..n]), schedule[n]);
      }
      assert !Exclusive(Execute(start, schedule[..n]).db) || !Exclusive(Execute(start, schedule[..n + 1]).db);
    }
  }

  predicate NoAmendment(db: Database) {
    forall i :: i in db.bills ==> !db.bills[i].amendment
  }

  lemma {:induction false} StaysUnamended(start: Database, schedule: seq<Action>)
    requires NoAmendment(start) && forall a :: a in schedule ==> !a.Amend?
    ensures NoAmendment(Execute(start, schedule).db)
  {
    if schedule != [] {
      assert schedule[|schedule| - 1] in schedule;
      StaysUnamended(start, schedule[..|schedule| - 1]);
    }
  }

  /** So as long as expense invoices are not amended, BatchProjects never makes two live
      claimants of one source: concurrent guards alone see to it. */
  lemma SourcesAreExclusive(start: Database, schedule: seq<Action>)
    requires DatabaseOk(start) && Exclusive(start) && NoAmendment(start) && forall a :: a in schedule ==> !a.Amend?
    ensures Exclusive(Execute(start, schedule).db)
  {
    forall n | 0 <= n < |schedule| ensures !BillsAgain(Execute(start, schedule[..n]), schedule[n]) {
      StaysUnamended(start, schedule[..n]);
      assert schedule[n] in schedule;
    }
    ExclusiveUpTo(start, schedule, |schedule|);
    assert schedule[..|schedule|] == schedule;
  }

  // ----- an amended invoice and a second generation -----

  ghost predicate Reachable(s: State) {
    exists schedule :: Execute(Unbilled(), schedule) == s
  }

  lemma Reach(s: State, a: Action) returns (t: State)
    requires Reachable(s)
    ensures t == Apply(s, a) && Reachable(t)
  {
    t := Apply(s, a);
    var schedule :| Execute(Unbilled(), schedule) == s;
    assert (schedule + [a])[..|schedule|] == schedule;
    assert Execute(Unbilled(), schedule + [a]) == t;
  }

  function Claim(): ClaimRow {
    ClaimRow(None, 1, 0)
  }

  function Expense(invoice: Option<InvoiceId>): DetailRow {
    DetailRow(0, 1, None, 10.0, true, invoice)
  }

  /** One submitted, billable expense; the invoices so far; what they bill; the locks. */
  function One(pointer: Option<InvoiceId>, invoices: map<InvoiceId, nat>, bills: map<InvoiceId, Bill>,
    locks: map<Lock, WorkerId>): Database
  {
    Database(Tables(map[0 := Claim()], map[0 := Expense(pointer)], map[], invoices), bills, locks)
  }

  function Unbilled(): Database {
    One(None, map[], map[], map[])
  }

  function Asks(pc: Pc): Request {
    Request([0], None, map[0 := 0], pc)
  }

  lemma OneName()
    ensures SortedNames([0]) == [0]
  {
    AscendingIsUnique(SortedNames([0]), [0]);
  }

  lemma FreeExpensePasses(t: Tables)
    requires 0 in t.claims && t.claims[0] == Claim()
    requires 0 in t.details && t.details[0] == Expense(t.details[0].invoice) && !HasLiveInvoice(t, 0)
    ensures FirstFailure(t, map[0 := 0], [0], None) == None
  {
    assert forall d: DetailId :: d in [0] <==> d == 0;
  }

  /** The one expense is there, free, and nothing is locked. */
  ghost predicate Free(db: Database) {
    && db.locks == map[] && db.tables.claims == map[0 := Claim()]
    && 0 in db.tables.details && db.tables.details == map[0 := Expense(db.tables.details[0].invoice)]
    && !HasLiveInvoice(db.tables, 0)
  }

  /** Worker `w`, alone, has come as far as `pc` with everything it waited for so far. */
  ghost predicate Along(s: State, t: State, w: WorkerId, pc: Pc, rows: set<Lock>) {
    && t.requests == s.requests[w := Asks(pc)]
    && t.db == s.db.(locks := t.db.locks) && t.db.locks.Keys == rows
    && forall l :: l in rows ==> t.db.locks[l] == w
  }

  lemma GenerationOpens(s: State, w: WorkerId) returns (t: State)
    requires Reachable(s) && w !in s.requests && Free(s.db)
    ensures Reachable(t) && Along(s, t, w, Locking(Sources), {})
  {
    hide Reachable;
    OneName();
    t := Reach(s, Open(w, [0], None));
    assert Discovered(s.db, [0]) == map[0 := 0];
  }

  lemma RowIsLocked(s: State, u: State, w: WorkerId, stage: Stage, rows: set<Lock>, l: Lock) returns (t: State)
    requires Reachable(u) && Along(s, u, w, Locking(stage), rows) && l in Rows(s.db.tables, Asks(Locking(stage)), stage)
    ensures Reachable(t) && Along(s, t, w, Locking(stage), rows + {l})
  {
    hide Reachable, Rows;
    t := Reach(u, LockRow(w, l));
    assert t.requests == u.requests;
  }

  lemma GroupIsChecked(s: State, u: State, w: WorkerId, stage: Stage, rows: set<Lock>) returns (t: State)
    requires Reachable(u) && Free(s.db) && Along(s, u, w, Locking(stage), rows)
    requires Rows(s.db.tables, Asks(Locking(stage)), stage) <= rows
    ensures Reachable(t) && Along(s, t, w, Checked(s.db.tables, Asks(Locking(stage)), stage), rows)
    ensures match stage
      case Sources => Checked(s.db.tables, Asks(Locking(stage)), stage) == Locking(Types)
      case Types => Checked(s.db.tables, Asks(Locking(stage)), stage) == Locking(Invoices)
      case Invoices => Checked(s.db.tables, Asks(Locking(stage)), stage).Ready?
  {
    FreeExpensePasses(s.db.tables);
    hide Reachable, Rows, FirstFailure;
    t := Reach(u, Check(w));
    var pc := Checked(s.db.tables, Asks(Locking(stage)), stage);
    assert t.requests == s.requests[w := Asks(pc)];
  }

  lemma SourceRows(t: Tables, pc: Pc)
    ensures Rows(t, Asks(pc), Sources) == {ClaimLock(0), DetailLock(0)}
  {
    assert 0 in Asks(pc).seen && 0 in Asks(pc).names;
  }

  lemma LaterRows(db: Database, pc: Pc)
    requires Free(db)
    ensures Rows(db.tables, Asks(pc), Types) == {}
    ensures var pointer := db.tables.details[0].invoice;
      Rows(db.tables, Asks(pc), Invoices) == if pointer.Some? then {InvoiceLock(pointer.value)} else {}
  {
    assert 0 in Asks(pc).names;
  }

  lemma GenerationLocks(s: State, w: WorkerId) returns (t: State)
    requires Reachable(s) && w !in s.requests && Free(s.db)
    ensures Reachable(t) && Along(s, t, w, Locking(Types), {ClaimLock(0), DetailLock(0)})
  {
    hide Reachable, Along, Rows, Free, Checked;
    SourceRows(s.db.tables, Locking(Sources));
    t := GenerationOpens(s, w);
    t := RowIsLocked(s, t, w, Sources, {}, ClaimLock(0));
    t := RowIsLocked(s, t, w, Sources, {} + {ClaimLock(0)}, DetailLock(0));
    assert {} + {ClaimLock(0)} + {DetailLock(0)} == {ClaimLock(0), DetailLock(0)};
    t := GroupIsChecked(s, t, w, Sources, {ClaimLock(0), DetailLock(0)});
  }

  lemma GenerationChecks(s: State, w: WorkerId) returns (t: State, pc: Pc, rows: set<Lock>)
    requires Reachable(s) && w !in s.requests && Free(s.db)
    ensures Reachable(t) && pc.Ready? && Along(s, t, w, pc, rows)
  {
    hide Reachable, Along, Rows, Checked;
    rows := {ClaimLock(0), DetailLock(0)};
    t := GenerationLocks(s, w);
    LaterRows(s.db, Locking(Types));
    t := GroupIsChecked(s, t, w, Types, rows);
    LaterRows(s.db, Locking(Invoices));
    var pointer := s.db.tables.details[0].invoice;
    if pointer.Some? {
      t := RowIsLocked(s, t, w, Invoices, rows, InvoiceLock(pointer.value));
      rows := rows + {InvoiceLock(pointer.value)};
    }
    t := GroupIsChecked(s, t, w, Invoices, rows);
    pc := Checked(s.db.tables, Asks(Locking(Invoices)), Invoices);
  }

  /** A generation by worker `w` from start to commit, for an expense that is free. */
  lemma Generates(s: State, w: WorkerId, i: InvoiceId) returns (t: State)
    requires Reachable(s) && w !in s.requests && Free(s.db) && i !in s.db.bills
    ensures Reachable(t) && t.requests.Keys == s.requests.Keys + {w}
    ensures t.db.locks == map[] && t.db.tables == Stamp(s.db.tables, [0], i)
    ensures t.db.bills == s.db.bills[i := Bill({0}, false)]
  {
    hide Reachable, Free;
    var u, pc, rows := GenerationChecks(s, w);
    t := Reach(u, Commit(w, i));
    assert Members([0]) == {0};
  }

  lemma FirstInvoice() returns (s: State)
    ensures Reachable(s) && s.requests.Keys == {0}
    ensures s.db == One(Some(0), map[0 := 0], map[0 := Bill({0}, false)], map[])
  {
    assert Execute(Unbilled(), []) == State(Unbilled(), map[]);
    s := Generates(State(Unbilled(), map[]), 0, 0);
    assert s.db.tables.details == map[0 := Expense(Some(0))];
  }

  lemma CancelledAndAmended() returns (s: State)
    ensures Reachable(s) && s.requests.Keys == {0}
    ensures s.db == One(Some(0), map[0 := 2, 1 := 0], map[0 := Bill({0}, false), 1 := Bill({0}, true)], map[])
  {
    hide Reachable;
    s := FirstInvoice();
    s := Reach(s, Submit(0));
    s := Reach(s, Cancel(0));
    assert s.db.tables.invoices == map[0 := 2];
    s := Reach(s, Amend(0, 1));
    assert s.db.tables.invoices == map[0 := 2, 1 := 0];
    assert s.db.bills == map[0 := Bill({0}, false), 1 := Bill({0}, true)];
  }

  /** A submitted expense invoice is cancelled and amended; its amendment carries the expense,
      but the detail still points at the cancelled invoice, and a second generation bills it
      again. */
  lemma AmendedExpenseIsBilledTwice() returns (s: State)
    ensures DatabaseOk(Unbilled()) && Reachable(s)
    ensures LiveBill(s.db, 1) && LiveBill(s.db, 2) && 0 in s.db.bills[1].sources && 0 in s.db.bills[2].sources
  {
    s := CancelledAndAmended();
    s := Generates(s, 1, 2);
  }
}
