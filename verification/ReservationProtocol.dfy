/** Sales Invoice transactions that guard Timesheet Details, interleaved with each other and
    with timesheet edits. A save or submit discovers the owned details from its snapshot,
    locks them one by one in name order, re-checks them on the current rows, and writes its
    lines only when it commits. Ownership of a detail never changes. */
module ReservationProtocol {
  import opened Basics
  import opened Names
  import opened BillingReservation

  type WorkerId = nat

  datatype Lock = InvoiceLock(i: InvoiceId) | DetailLock(d: DetailId)

  datatype Call =
    | SaveCall(invoice: Option<InvoiceId>, lines: seq<DetailId>, every: bool)
    | SubmitCall(i: InvoiceId)
    | CancelCall(i: InvoiceId)
    | DeleteCall(i: InvoiceId)
    | SheetCall(d: DetailId, docstatus: nat, billable: bool)

  datatype Pc =
    | Opened
    | HasInvoice                                // holds its invoice row
    | Locking(names: seq<DetailId>, taken: nat) // holds the first `taken` detail rows
    | Ready
    | Committed
    | Aborted

  datatype Request = Request(call: Call, pc: Pc, snap: Sources)

  datatype Database = Database(sources: Sources, locks: map<Lock, WorkerId>)

  datatype State = State(db: Database, requests: map<WorkerId, Request>)

  datatype Action =
    | Open(w: WorkerId, call: Call)
    | LockInvoice(w: WorkerId)
    | Scope(w: WorkerId)
    | LockDetail(w: WorkerId)
    | Check(w: WorkerId)
    | Commit(w: WorkerId)
    | Abort(w: WorkerId)

  predicate Holds(db: Database, w: WorkerId, l: Lock) {
    l in db.locks && db.locks[l] == w
  }

  predicate Grantable(db: Database, w: WorkerId, l: Lock) {
    l in db.locks ==> db.locks[l] == w
  }

  function Released(db: Database, w: WorkerId): Database {
    db.(locks := map l | l in db.locks && db.locks[l] != w :: db.locks[l])
  }

  predicate OwnedIn(s: Sources, projects: set<ProjectId>, d: DetailId) {
    d in s.details && Owned(s.details[d], projects)
  }

  /** The invoice a request works on, if it exists already. */
  function Target(call: Call): Option<InvoiceId> {
    match call
    case SaveCall(invoice, _, _) => invoice
    case SubmitCall(i) => Some(i)
    case CancelCall(i) => Some(i)
    case DeleteCall(i) => Some(i)
    case SheetCall(_, _, _) => None
  }

  predicate Legal(call: Call, from: DocStatus) {
    match call
    case SaveCall(_, _, _) => from == DraftDoc
    case SubmitCall(_) => from == DraftDoc
    case CancelCall(_) => from == SubmittedDoc
    case DeleteCall(_) => from == DraftDoc || from == CancelledDoc
    case SheetCall(_, _, _) => false
  }

  /** The lines the request is about, as its own document shows them. */
  function LinesOf(s: Sources, call: Call): seq<DetailId> {
    if call.SaveCall? then call.lines
    else if Target(call).Some? && Target(call).value < |s.invoices| then s.invoices[Target(call).value].lines
    else []
  }

  /** The detail rows the request locks, in order. */
  function NamesToLock(snap: Sources, projects: set<ProjectId>, call: Call): seq<DetailId> {
    match call
    case SaveCall(_, lines, every) =>
      var names := SortedNames(lines);
      if every then names else SortedSet(names, set d | d in names && OwnedIn(snap, projects, d))
    case SubmitCall(_) =>
      var names := SortedNames(LinesOf(snap, call));
      SortedSet(names, set d | d in names && OwnedIn(snap, projects, d))
    case CancelCall(_) => SortedNames(LinesOf(snap, call))
    case DeleteCall(_) => []
    case SheetCall(d, _, _) => [d]
  }

  ghost predicate ChecksPass(s: Sources, call: Call, snap: Sources, names: seq<DetailId>) {
    call.SaveCall? || call.SubmitCall? ==>
      forall d :: d in names ==> Once(LinesOf(snap, call), d) && SourceOk(s, d, Target(call))
  }

  function Write(s: Sources, call: Call): Sources
    requires Fits(s, call)
  {
    match call
    case SaveCall(None, lines, _) => s.(invoices := s.invoices + [Invoice(DraftDoc, lines)])
    case SaveCall(Some(i), lines, _) => s.(invoices := s.invoices[i := Invoice(DraftDoc, lines)])
    case SubmitCall(i) =>
      Sources(map d | d in s.details ::
                if d in s.invoices[i].lines then s.details[d].(invoice := Some(i)) else s.details[d],
              s.invoices[i := s.invoices[i].(docstatus := SubmittedDoc)])
    case CancelCall(i) =>
      Sources(map d | d in s.details ::
                if d in s.invoices[i].lines && s.details[d].invoice == Some(i) then s.details[d].(invoice := None)
                else s.details[d],
              s.invoices[i := s.invoices[i].(docstatus := CancelledDoc)])
    case DeleteCall(i) => s.(invoices := s.invoices[i := s.invoices[i].(docstatus := DeletedDoc)])
    case SheetCall(d, docstatus, billable) =>
      if d !in s.details then s else
      s.(details := s.details[d := s.details[d].(docstatus := docstatus, billable := billable)])
  }

  predicate Fits(s: Sources, call: Call) {
    Target(call).Some? ==> Target(call).value < |s.invoices|
  }

  /** One step of one request. A step whose guard does not hold changes nothing. */
  ghost function Move(db: Database, projects: set<ProjectId>, x: Request, a: Action): (Database, Request) {
    var s := db.sources;
    match a
    case Open(_, _) => (db, x)
    case LockInvoice(w) =>
      if !x.pc.Opened? || Target(x.call).None? || !Grantable(db, w, InvoiceLock(Target(x.call).value)) then (db, x) else
      var i := Target(x.call).value;
      if !(i < |x.snap.invoices| && i < |s.invoices| && x.snap.invoices[i] == s.invoices[i])
        || !Legal(x.call, s.invoices[i].docstatus) then (Released(db, w), x.(pc := Aborted))
      else (db.(locks := db.locks[InvoiceLock(i) := w]), x.(pc := HasInvoice))
    case Scope(_) =>
      if x.pc.HasInvoice? || (x.pc.Opened? && Target(x.call).None?) then
        (db, x.(pc := Locking(NamesToLock(x.snap, projects, x.call), 0)))
      else (db, x)
    case LockDetail(w) =>
      if !x.pc.Locking? || x.pc.taken >= |x.pc.names| then (db, x) else
      var l := DetailLock(x.pc.names[x.pc.taken]);
      if !Grantable(db, w, l) then (db, x) else
      (db.(locks := db.locks[l := w]), x.(pc := x.pc.(taken := x.pc.taken + 1)))
    case Check(w) =>
      if !x.pc.Locking? || x.pc.taken != |x.pc.names| then (db, x)
      else if ChecksPass(s, x.call, x.snap, x.pc.names) then (db, x.(pc := Ready))
      else (Released(db, w), x.(pc := Aborted))
    case Commit(w) =>
      if !x.pc.Ready? || !Fits(s, x.call) then (db, x) else
      (Released(db.(sources := Write(s, x.call)), w), x.(pc := Committed))
    case Abort(w) =>
      if x.pc.Committed? || x.pc.Aborted? then (db, x) else (Released(db, w), x.(pc := Aborted))
  }

  ghost function Apply(s: State, projects: set<ProjectId>, a: Action): State {
    if a.w in s.requests then
      var (db, x) := Move(s.db, projects, s.requests[a.w], a);
      State(db, s.requests[a.w := x])
    else if a.Open? then
      s.(requests := s.requests[a.w := Request(a.call, Opened, s.db.sources)])
    else
      s
  }

  ghost function Execute(start: Sources, projects: set<ProjectId>, schedule: seq<Action>): State {
    if schedule == [] then State(Database(start, map[]), map[])
    else Apply(Execute(start, projects, schedule[..|schedule| - 1]), projects, schedule[|schedule| - 1])
  }

  // ----- the invariant -----

  /** An owned detail on a live invoice is there once, and on no other live invoice. */
  ghost predicate Exclusive(s: Sources, projects: set<ProjectId>) {
    forall i, d :: 0 <= i < |s.invoices| && Live(s.invoices[i]) && d in s.invoices[i].lines && OwnedIn(s, projects, d) ==>
      Once(s.invoices[i].lines, d) && !ClaimedElsewhere(s, d, Some(i))
  }

  /** A billed stamp names a submitted invoice that has the detail on it. */
  ghost predicate StampsOk(s: Sources, projects: set<ProjectId>) {
    forall d :: OwnedIn(s, projects, d) && s.details[d].invoice.Some? ==>
      var i := s.details[d].invoice.value;
      i < |s.invoices| && s.invoices[i].docstatus == SubmittedDoc && d in s.invoices[i].lines
  }

  ghost predicate SourcesOk(s: Sources, projects: set<ProjectId>) {
    Exclusive(s, projects) && StampsOk(s, projects)
  }

  ghost predicate SameOwnership(a: Sources, b: Sources, projects: set<ProjectId>) {
    forall d :: OwnedIn(a, projects, d) <==> OwnedIn(b, projects, d)
  }

  /** The invoice row is held and still what the request's document shows. */
  ghost predicate InvoiceHeld(db: Database, w: WorkerId, x: Request) {
    Target(x.call).Some? ==>
      var i := Target(x.call).value;
      && Holds(db, w, InvoiceLock(i)) && i < |x.snap.invoices| && i < |db.sources.invoices|
      && x.snap.invoices[i] == db.sources.invoices[i] && Legal(x.call, db.sources.invoices[i].docstatus)
  }

  /** The details whose state a save or submit answers for: the owned ones, or all of them. */
  predicate Answers(s: Sources, projects: set<ProjectId>, call: Call, d: DetailId) {
    OwnedIn(s, projects, d) || (d in s.details && call.SaveCall? && call.every)
  }

  /** Every such detail of the request's lines is locked by it. */
  ghost predicate SourcesHeld(db: Database, projects: set<ProjectId>, w: WorkerId, x: Request) {
    !x.call.DeleteCall? ==>
      forall d :: d in LinesOf(x.snap, x.call) && Answers(db.sources, projects, x.call, d) ==> Holds(db, w, DetailLock(d))
  }

  /** and, for a save or submit, still submitted and billable. */
  ghost predicate SourcesGood(db: Database, projects: set<ProjectId>, x: Request) {
    x.call.SaveCall? || x.call.SubmitCall? ==>
      forall d :: d in LinesOf(x.snap, x.call) && Answers(db.sources, projects, x.call, d) ==>
        db.sources.details[d].docstatus == 1 && db.sources.details[d].billable
  }

  /** What a checked request can rely on until it commits. */
  ghost predicate ReadyOk(db: Database, projects: set<ProjectId>, w: WorkerId, x: Request) {
    && InvoiceHeld(db, w, x) && SourcesHeld(db, projects, w, x) && SourcesGood(db, projects, x)
    && (x.call.SaveCall? ==>
          forall d :: d in x.call.lines && OwnedIn(db.sources, projects, d) ==>
            Once(x.call.lines, d) && !ClaimedElsewhere(db.sources, d, Target(x.call)))
    && (x.call.SheetCall? ==> Holds(db, w, DetailLock(x.call.d)))
  }

  ghost predicate RequestOk(db: Database, projects: set<ProjectId>, w: WorkerId, x: Request) {
    && SameOwnership(x.snap, db.sources, projects)
    && match x.pc
       case Opened => true
       case HasInvoice => Target(x.call).Some? && InvoiceHeld(db, w, x)
       case Locking(names, taken) =>
         && InvoiceHeld(db, w, x)
         && names == NamesToLock(x.snap, projects, x.call) && taken <= |names|
         && forall k :: 0 <= k < taken ==> Holds(db, w, DetailLock(names[k]))
       case Ready => ReadyOk(db, projects, w, x)
       case Committed => true
       case Aborted => true
  }

  ghost predicate Inv(s: State, projects: set<ProjectId>) {
    && SourcesOk(s.db.sources, projects)
    && forall w :: w in s.requests ==> RequestOk(s.db, projects, w, s.requests[w])
  }

  // ----- one step -----

  /** Every owned detail of the request's lines is among the rows it locks. */
  lemma OwnedAreLocked(snap: Sources, projects: set<ProjectId>, call: Call, d: DetailId)
    requires !call.DeleteCall? && !call.SheetCall? && d in LinesOf(snap, call)
    requires OwnedIn(snap, projects, d) || (call.SaveCall? && call.every)
    ensures d in NamesToLock(snap, projects, call)
  {
  }

  lemma CheckedIsReady(db: Database, projects: set<ProjectId>, w: WorkerId, x: Request)
    requires RequestOk(db, projects, w, x) && x.pc.Locking? && x.pc.taken == |x.pc.names|
    requires ChecksPass(db.sources, x.call, x.snap, x.pc.names)
    ensures ReadyOk(db, projects, w, x)
  {
    if !x.call.DeleteCall? && !x.call.SheetCall? {
      forall d | d in LinesOf(x.snap, x.call) && Answers(db.sources, projects, x.call, d)
        ensures Holds(db, w, DetailLock(d)) && d in x.pc.names
      {
        assert OwnedIn(db.sources, projects, d) ==> OwnedIn(x.snap, projects, d);
        OwnedAreLocked(x.snap, projects, x.call, d);
        var k :| 0 <= k < |x.pc.names| && x.pc.names[k] == d;
      }
    } else if x.call.SheetCall? {
      assert x.pc.names[0] == x.call.d;
    }
  }

  lemma WriteKeepsOwnership(s: Sources, projects: set<ProjectId>, call: Call)
    requires Fits(s, call)
    ensures SameOwnership(s, Write(s, call), projects)
  {
  }

  /** The invoice whose lines the call writes. */
  function Saved(s: Sources, call: Call): Option<InvoiceId> {
    if !call.SaveCall? then None else if call.invoice.Some? then call.invoice else Some(|s.invoices|)
  }

  /** Live lines after a write were live lines before it, unless the call itself saved them. */
  lemma LinesBefore(s: Sources, call: Call, i: InvoiceId)
    requires Fits(s, call) && (Target(call).Some? ==> Legal(call, s.invoices[Target(call).value].docstatus))
    requires var t := Write(s, call); i < |t.invoices| && Live(t.invoices[i]) && Saved(s, call) != Some(i)
    ensures i < |s.invoices| && Live(s.invoices[i]) && Write(s, call).invoices[i].lines == s.invoices[i].lines
  {
  }

  lemma WriteExclusive(db: Database, projects: set<ProjectId>, w: WorkerId, x: Request)
    requires SourcesOk(db.sources, projects) && ReadyOk(db, projects, w, x)
    ensures Exclusive(Write(db.sources, x.call), projects)
  {
    var s, t, saved := db.sources, Write(db.sources, x.call), Saved(db.sources, x.call);
    WriteKeepsOwnership(s, projects, x.call);
    forall i, d | 0 <= i < |t.invoices| && Live(t.invoices[i]) && d in t.invoices[i].lines && OwnedIn(t, projects, d)
      ensures Once(t.invoices[i].lines, d) && !ClaimedElsewhere(t, d, Some(i))
    {
      assert OwnedIn(s, projects, d);
      if saved != Some(i) {
        LinesBefore(s, x.call, i);
      }
      forall j | 0 <= j < |t.invoices| && Live(t.invoices[j]) && Some(i) != Some(j) ensures d !in t.invoices[j].lines {
        if saved != Some(j) {
          LinesBefore(s, x.call, j);
        }
      }
    }
  }

  lemma WriteStamps(db: Database, projects: set<ProjectId>, w: WorkerId, x: Request)
    requires SourcesOk(db.sources, projects) && ReadyOk(db, projects, w, x)
    ensures StampsOk(Write(db.sources, x.call), projects)
  {
  }

  /** Nobody else's commit claims a detail whose row is locked. */
  lemma ClaimsStayAway(db: Database, projects: set<ProjectId>, w: WorkerId, x: Request, v: WorkerId, d: DetailId,
    current: Option<InvoiceId>)
    requires ReadyOk(db, projects, w, x) && v != w
    requires OwnedIn(db.sources, projects, d) && Holds(db, v, DetailLock(d)) && !ClaimedElsewhere(db.sources, d, current)
    ensures !ClaimedElsewhere(Write(db.sources, x.call), d, current)
  {
    var s, t := db.sources, Write(db.sources, x.call);
    forall i | 0 <= i < |t.invoices| && Live(t.invoices[i]) && current != Some(i) ensures d !in t.invoices[i].lines {
      if Saved(s, x.call) != Some(i) {
        LinesBefore(s, x.call, i);
      }
    }
  }

  lemma InvoiceStaysHeld(db: Database, projects: set<ProjectId>, w: WorkerId, x: Request, v: WorkerId, y: Request)
    requires ReadyOk(db, projects, w, x) && v != w && InvoiceHeld(db, v, y)
    ensures InvoiceHeld(Move(db, projects, x.(pc := Ready), Commit(w)).0, v, y)
  {
  }

  /** Nobody else's commit changes the state of a detail whose row is locked. */
  lemma DetailStays(db: Database, projects: set<ProjectId>, w: WorkerId, x: Request, v: WorkerId, d: DetailId)
    requires ReadyOk(db, projects, w, x) && v != w && Holds(db, v, DetailLock(d))
    ensures var t := Write(db.sources, x.call);
      && (d in t.details <==> d in db.sources.details)
      && (d in t.details ==>
            t.details[d].docstatus == db.sources.details[d].docstatus && t.details[d].billable == db.sources.details[d].billable)
  {
  }

  lemma SourcesStayGood(db: Database, projects: set<ProjectId>, w: WorkerId, x: Request, v: WorkerId, y: Request)
    requires ReadyOk(db, projects, w, x) && ReadyOk(db, projects, v, y) && v != w
    ensures SourcesGood(Move(db, projects, x.(pc := Ready), Commit(w)).0, projects, y)
    ensures SourcesHeld(Move(db, projects, x.(pc := Ready), Commit(w)).0, projects, v, y)
  {
    var t := Write(db.sources, x.call);
    WriteKeepsOwnership(db.sources, projects, x.call);
    if !y.call.DeleteCall? {
      forall d | d in LinesOf(y.snap, y.call) && Answers(t, projects, y.call, d)
        ensures Answers(db.sources, projects, y.call, d) && Holds(db, v, DetailLock(d))
      {
        assert OwnedIn(t, projects, d) <==> OwnedIn(db.sources, projects, d);
      }
      forall d | d in LinesOf(y.snap, y.call) && Answers(t, projects, y.call, d)
        ensures t.details[d].docstatus == db.sources.details[d].docstatus
        ensures t.details[d].billable == db.sources.details[d].billable
      {
        DetailStays(db, projects, w, x, v, d);
      }
    }
  }

  lemma CommitKeepsOthers(db: Database, projects: set<ProjectId>, w: WorkerId, x: Request, v: WorkerId, y: Request)
    requires RequestOk(db, projects, w, x) && RequestOk(db, projects, v, y) && v != w && x.pc.Ready?
    ensures RequestOk(Move(db, projects, x, Commit(w)).0, projects, v, y)
  {
    WriteKeepsOwnership(db.sources, projects, x.call);
    if !y.pc.Opened? && !y.pc.Committed? && !y.pc.Aborted? {
      InvoiceStaysHeld(db, projects, w, x, v, y);
    }
    if y.pc.Ready? {
      SourcesStayGood(db, projects, w, x, v, y);
    }
    if y.pc.Ready? && y.call.SaveCall? {
      var t := Write(db.sources, x.call);
      forall d | d in y.call.lines && OwnedIn(t, projects, d) ensures !ClaimedElsewhere(t, d, Target(y.call)) {
        assert OwnedIn(db.sources, projects, d);
        ClaimsStayAway(db, projects, w, x, v, d, Target(y.call));
      }
    }
  }

  lemma OtherStaysOk(db: Database, projects: set<ProjectId>, x: Request, a: Action, v: WorkerId, y: Request)
    requires RequestOk(db, projects, a.w, x) && RequestOk(db, projects, v, y) && v != a.w
    ensures RequestOk(Move(db, projects, x, a).0, projects, v, y)
  {
    if a.Commit? && x.pc.Ready? {
      CommitKeepsOthers(db, projects, a.w, x, v, y);
    } else {
      LocksKept(db, projects, x, a, v);
    }
  }

  /** A step that does not commit leaves the sources and everyone else's locks alone. */
  lemma LocksKept(db: Database, projects: set<ProjectId>, x: Request, a: Action, v: WorkerId)
    requires v != a.w && !(a.Commit? && x.pc.Ready?)
    ensures Move(db, projects, x, a).0.sources == db.sources
    ensures forall l :: Holds(db, v, l) ==> Holds(Move(db, projects, x, a).0, v, l)
  {
  }

  lemma CommitterStaysOk(db: Database, projects: set<ProjectId>, x: Request, a: Action)
    requires SourcesOk(db.sources, projects) && RequestOk(db, projects, a.w, x) && a.Commit?
    ensures var (db', x') := Move(db, projects, x, a);
      SourcesOk(db'.sources, projects) && RequestOk(db', projects, a.w, x')
  {
    if x.pc.Ready? {
      WriteKeepsOwnership(db.sources, projects, x.call);
      WriteExclusive(db, projects, a.w, x);
      WriteStamps(db, projects, a.w, x);
    }
  }

  lemma CheckerStaysOk(db: Database, projects: set<ProjectId>, x: Request, a: Action)
    requires SourcesOk(db.sources, projects) && RequestOk(db, projects, a.w, x) && a.Check?
    ensures var (db', x') := Move(db, projects, x, a);
      SourcesOk(db'.sources, projects) && RequestOk(db', projects, a.w, x')
  {
    if x.pc.Locking? && x.pc.taken == |x.pc.names| && ChecksPass(db.sources, x.call, x.snap, x.pc.names) {
      CheckedIsReady(db, projects, a.w, x);
    }
  }

  lemma MoverStaysOk(db: Database, projects: set<ProjectId>, x: Request, a: Action)
    requires SourcesOk(db.sources, projects) && RequestOk(db, projects, a.w, x)
    ensures var (db', x') := Move(db, projects, x, a);
      SourcesOk(db'.sources, projects) && RequestOk(db', projects, a.w, x')
  {
    if a.Commit? {
      CommitterStaysOk(db, projects, x, a);
    } else if a.Check? {
      CheckerStaysOk(db, projects, x, a);
    }
  }

  lemma InvStep(s: State, projects: set<ProjectId>, a: Action)
    requires Inv(s, projects)
    ensures Inv(Apply(s, projects, a), projects)
  {
    if a.w in s.requests {
      var t := Apply(s, projects, a);
      MoverStaysOk(s.db, projects, s.requests[a.w], a);
      forall v | v in t.requests ensures RequestOk(t.db, projects, v, t.requests[v]) {
        if v != a.w {
          OtherStaysOk(s.db, projects, s.requests[a.w], a, v, s.requests[v]);
        }
      }
    }
  }

  lemma {:induction false} InvAlways(start: Sources, projects: set<ProjectId>, schedule: seq<Action>)
    requires SourcesOk(start, projects)
    ensures Inv(Execute(start, projects, schedule), projects)
  {
    if schedule != [] {
      var n := |schedule| - 1;
      InvAlways(start, projects, schedule[..n]);
      InvStep(Execute(start, projects, schedule[..n]), projects, schedule[n]);
    }
  }

  // ----- what holds over every schedule -----

  /** Whatever interleaves, an owned detail is on at most one draft or submitted invoice, and
      at most once on it. */
  lemma DetailsAreExclusive(start: Sources, projects: set<ProjectId>, schedule: seq<Action>, d: DetailId,
    i: InvoiceId, j: InvoiceId, a: nat, b: nat)
    requires SourcesOk(start, projects)
    requires var s := Execute(start, projects, schedule).db.sources;
      && OwnedIn(s, projects, d) && i < |s.invoices| && j < |s.invoices| && Live(s.invoices[i]) && Live(s.invoices[j])
      && a < |s.invoices[i].lines| && s.invoices[i].lines[a] == d
      && b < |s.invoices[j].lines| && s.invoices[j].lines[b] == d
    ensures i == j && a == b
  {
    InvAlways(start, projects, schedule);
    OnOneInvoice(Execute(start, projects, schedule).db.sources, projects, d, i, j, a, b);
  }

  /** What a save or submit writes, it writes about sources that are still submitted and billable
      when it commits: an edit or cancellation of their timesheet waits for the locked rows. */
  lemma BilledHoursAreSubmitted(start: Sources, projects: set<ProjectId>, schedule: seq<Action>, w: WorkerId, d: DetailId)
    requires SourcesOk(start, projects)
    requires var s := Execute(start, projects, schedule);
      && w in s.requests && s.requests[w].pc.Ready? && d in s.db.sources.details
      && var row := s.db.sources.details[d];
         match s.requests[w].call
         case SaveCall(_, lines, every) =>
           d in lines && (every || row.task || (row.project.Some? && row.project.value in projects))
         case SubmitCall(i) =>
           && i < |s.db.sources.invoices| && d in s.db.sources.invoices[i].lines
           && (row.task || (row.project.Some? && row.project.value in projects))
         case _ => false
    ensures var s := Execute(start, projects, schedule);
      var t := Apply(s, projects, Commit(w));
      && s.db.sources.details[d].docstatus == 1 && s.db.sources.details[d].billable
      && t.requests[w].pc == Committed
      && d in t.db.sources.details && t.db.sources.details[d].docstatus == 1 && t.db.sources.details[d].billable
      && match s.requests[w].call
         case SaveCall(invoice, lines, _) =>
           var i := if invoice.Some? then invoice.value else |s.db.sources.invoices|;
           i < |t.db.sources.invoices| && t.db.sources.invoices[i] == Invoice(DraftDoc, lines)
         case SubmitCall(i) =>
           && t.db.sources.invoices == s.db.sources.invoices[i := Invoice(SubmittedDoc, s.db.sources.invoices[i].lines)]
           && t.db.sources.details[d].invoice == Some(i)
         case _ => true
  {
    InvAlways(start, projects, schedule);
    var s := Execute(start, projects, schedule);
    assert RequestOk(s.db, projects, w, s.requests[w]);
    assert Answers(s.db.sources, projects, s.requests[w].call, d);
  }

  /** When a request gets its invoice row: if the row is as its document shows it, drafts are saved,
      submitted and deleted, submitted invoices cancelled, and cancelled ones deleted. */
  lemma InvoiceLockMeans(db: Database, projects: set<ProjectId>, x: Request, w: WorkerId, i: InvoiceId)
    requires x.pc.Opened? && InvoiceLock(i) !in db.locks && i < |x.snap.invoices| && i < |db.sources.invoices|
    requires match x.call
      case SaveCall(invoice, _, _) => invoice == Some(i)
      case SubmitCall(j) => i == j
      case CancelCall(j) => i == j
      case DeleteCall(j) => i == j
      case SheetCall(_, _, _) => false
    ensures var (db', x') := Move(db, projects, x, LockInvoice(w));
      var status := db.sources.invoices[i].docstatus;
      && db'.sources == db.sources
      && x'.pc == if x.snap.invoices[i] == db.sources.invoices[i]
                    && ((status == DraftDoc && !x.call.CancelCall?)
                        || (status == SubmittedDoc && x.call.CancelCall?)
                        || (status == CancelledDoc && x.call.DeleteCall?)) then HasInvoice
                  else Aborted
  {
  }

  /** What a commit writes, in the rows' fields. */
  lemma CommitMeans(db: Database, projects: set<ProjectId>, x: Request, w: WorkerId, d: DetailId)
    requires x.pc.Ready? && Fits(db.sources, x.call) && d in db.sources.details
    ensures var s, t, row := db.sources, Move(db, projects, x, Commit(w)).0.sources, db.sources.details[d];
      && t.details.Keys == s.details.Keys
      && match x.call
         case SaveCall(invoice, lines, _) =>
           && t.details[d] == row
           && t.invoices == (if invoice.None? then s.invoices + [Invoice(DraftDoc, lines)]
                             else s.invoices[invoice.value := Invoice(DraftDoc, lines)])
         case SubmitCall(i) =>
           && t.invoices == s.invoices[i := Invoice(SubmittedDoc, s.invoices[i].lines)]
           && t.details[d] == if d in s.invoices[i].lines then row.(invoice := Some(i)) else row
         case CancelCall(i) =>
           && t.invoices == s.invoices[i := Invoice(CancelledDoc, s.invoices[i].lines)]
           && t.details[d] == if d in s.invoices[i].lines && row.invoice == Some(i) then row.(invoice := None) else row
         case DeleteCall(i) => t.invoices == s.invoices[i := Invoice(DeletedDoc, s.invoices[i].lines)] && t.details[d] == row
         case SheetCall(e, docstatus, billable) =>
           && t.invoices == s.invoices
           && t.details[d] == if d == e then row.(docstatus := docstatus, billable := billable) else row
  {
  }

  lemma OnOneInvoice(s: Sources, projects: set<ProjectId>, d: DetailId, i: InvoiceId, j: InvoiceId, a: nat, b: nat)
    requires Exclusive(s, projects) && OwnedIn(s, projects, d)
    requires i < |s.invoices| && j < |s.invoices| && Live(s.invoices[i]) && Live(s.invoices[j])
    requires a < |s.invoices[i].lines| && s.invoices[i].lines[a] == d
    requires b < |s.invoices[j].lines| && s.invoices[j].lines[b] == d
    ensures i == j && a == b
  {
    assert Once(s.invoices[i].lines, d) && !ClaimedElsewhere(s, d, Some(i));
  }

  lemma OnceIsOneInMultiset(lines: seq<DetailId>, d: DetailId)
    ensures Once(lines, d) <==> multiset(lines)[d] <= 1
  {
    if k :| 0 <= k < |lines| && lines[k] == d {
      assert lines == lines[..k] + [d] + lines[k + 1..];
      assert multiset(lines)[d] == multiset(lines[..k])[d] + 1 + multiset(lines[k + 1..])[d];
      assert multiset(lines)[d] <= 1 <==> d !in lines[..k] && d !in lines[k + 1..];
    }
  }

  function Raw(lines: seq<DetailId>): seq<Option<DetailId>> {
    seq(|lines|, k requires 0 <= k < |lines| => Some(lines[k]))
  }

  lemma {:induction false} RawCounts(lines: seq<DetailId>, d: DetailId)
    ensures multiset(Raw(lines))[Some(d)] == multiset(lines)[d]
    ensures Some(d) in Raw(lines) <==> d in lines
  {
    if lines != [] {
      var n := |lines| - 1;
      RawCounts(lines[..n], d);
      assert Raw(lines) == Raw(lines[..n]) + [Some(lines[n])];
      assert lines == lines[..n] + [lines[n]];
    }
  }

  /** Saving a draft again is never refused because of its own claims: with its own lines the
      guard passes exactly when the owned ones are still submitted and billable. */
  lemma ResaveIsRefusedOnlyForItsSources(start: Sources, projects: set<ProjectId>, schedule: seq<Action>, i: InvoiceId)
    requires SourcesOk(start, projects)
    requires var s := Execute(start, projects, schedule).db.sources;
      i < |s.invoices| && s.invoices[i].docstatus == DraftDoc
    ensures var s := Execute(start, projects, schedule).db.sources;
      var lines := s.invoices[i].lines;
      GuardPasses(s, projects, Raw(lines), Some(i), false, s.details)
      <==> forall d :: d in lines && OwnedIn(s, projects, d) ==> s.details[d].docstatus == 1 && s.details[d].billable
  {
    InvAlways(start, projects, schedule);
    var s := Execute(start, projects, schedule).db.sources;
    var lines := s.invoices[i].lines;
    forall d ensures
      (Guarded(projects, Raw(lines), false, s.details, d) <==> d in lines && OwnedIn(s, projects, d))
      && (d in lines && OwnedIn(s, projects, d) ==>
        (multiset(Raw(lines))[Some(d)] <= 1 && (SourceOk(s, d, Some(i)) <==> Invoiceable(s.details[d]))))
    {
      RawCounts(lines, d);
      OnceIsOneInMultiset(lines, d);
      if d in lines && OwnedIn(s, projects, d) {
        OwnDraftNeverBlocks(s, projects, i, d);
      }
    }
  }

  lemma OwnDraftNeverBlocks(s: Sources, projects: set<ProjectId>, i: InvoiceId, d: DetailId)
    requires SourcesOk(s, projects) && i < |s.invoices| && s.invoices[i].docstatus == DraftDoc
    requires d in s.invoices[i].lines && OwnedIn(s, projects, d)
    ensures Once(s.invoices[i].lines, d)
    ensures !BilledElsewhere(s.details[d], Some(i)) && !ClaimedElsewhere(s, d, Some(i))
  {
    assert !ClaimedElsewhere(s, d, Some(i));
    assert BilledElsewhere(s.details[d], Some(i)) ==> ClaimedElsewhere(s, d, Some(i));
  }

  /** The check a save runs on its locked rows is the guard's own demand on its lines. */
  lemma CheckIsTheGuard(s: Sources, snap: Sources, projects: set<ProjectId>, call: Call)
    requires call.SaveCall?
    ensures ChecksPass(s, call, snap, NamesToLock(snap, projects, call))
      <==> GuardPasses(s, projects, Raw(call.lines), call.invoice, call.every, snap.details)
  {
    forall d ensures
      (d in NamesToLock(snap, projects, call) <==> Guarded(projects, Raw(call.lines), call.every, snap.details, d))
      && (Once(call.lines, d) <==> multiset(Raw(call.lines))[Some(d)] <= 1)
    {
      RawCounts(call.lines, d);
      OnceIsOneInMultiset(call.lines, d);
    }
  }

  predicate Ended(pc: Pc) {
    pc.Committed? || pc.Aborted?
  }

  predicate EndedIsFree(s: State, w: WorkerId, l: Lock) {
    w in s.requests && Ended(s.requests[w].pc) ==> !Holds(s.db, w, l)
  }

  lemma FreeStep(s: State, projects: set<ProjectId>, a: Action, w: WorkerId, l: Lock)
    requires EndedIsFree(s, w, l)
    ensures EndedIsFree(Apply(s, projects, a), w, l)
  {
    hide ChecksPass, NamesToLock, Legal, Target;
  }

  lemma {:induction false} FreeAlways(start: Sources, projects: set<ProjectId>, schedule: seq<Action>, w: WorkerId, l: Lock)
    ensures EndedIsFree(Execute(start, projects, schedule), w, l)
  {
    if schedule != [] {
      FreeAlways(start, projects, schedule[..|schedule| - 1], w, l);
      FreeStep(Execute(start, projects, schedule[..|schedule| - 1]), projects, schedule[|schedule| - 1], w, l);
    }
  }

  /** A request that committed or was refused has given every lock back. */
  lemma EndedHoldsNothing(start: Sources, projects: set<ProjectId>, schedule: seq<Action>, w: WorkerId, l: Lock)
    requires var s := Execute(start, projects, schedule);
      w in s.requests && (s.requests[w].pc.Committed? || s.requests[w].pc.Aborted?)
    ensures var locks := Execute(start, projects, schedule).db.locks; l in locks ==> locks[l] != w
  {
    FreeAlways(start, projects, schedule, w, l);
  }

  lemma StepAfterEnd(s: State, projects: set<ProjectId>, a: Action, w: WorkerId)
    requires w in s.requests && (s.requests[w].pc.Committed? || s.requests[w].pc.Aborted?)
    ensures w in Apply(s, projects, a).requests && Apply(s, projects, a).requests[w] == s.requests[w]
  {
    hide Write, ChecksPass, NamesToLock;
  }

  /** A request that committed or was refused does nothing more. */
  lemma {:induction false} EndIsFinal(start: Sources, projects: set<ProjectId>, schedule: seq<Action>,
    later: seq<Action>, w: WorkerId)
    requires var s := Execute(start, projects, schedule);
      w in s.requests && (s.requests[w].pc.Committed? || s.requests[w].pc.Aborted?)
    ensures var s, t := Execute(start, projects, schedule), Execute(start, projects, schedule + later);
      w in t.requests && t.requests[w] == s.requests[w]
  {
    if later == [] {
      assert schedule + later == schedule;
    } else {
      var whole, front := schedule + later, later[..|later| - 1];
      assert whole[..|whole| - 1] == schedule + front;
      EndIsFinal(start, projects, schedule, front, w);
      StepAfterEnd(Execute(start, projects, schedule + front), projects, later[|later| - 1], w);
    }
  }

  /** A request may raise or die at any point before its end: it writes nothing, and its locks alone
      are given back. */
  lemma DeathReleases(s: State, projects: set<ProjectId>, w: WorkerId, l: Lock)
    requires w in s.requests && !s.requests[w].pc.Committed? && !s.requests[w].pc.Aborted?
    ensures var t := Apply(s, projects, Abort(w));
      && t.requests == s.requests[w := s.requests[w].(pc := Aborted)] && t.db.sources == s.db.sources
      && (l in t.db.locks <==> l in s.db.locks && s.db.locks[l] != w)
      && (l in t.db.locks ==> t.db.locks[l] == s.db.locks[l])
  {
  }

  // ----- two saves and one detail -----

  ghost predicate Reachable(start: Sources, s: State) {
    exists schedule :: Execute(start, {}, schedule) == s
  }

  lemma Reach(start: Sources, s: State, a: Action) returns (t: State)
    requires Reachable(start, s)
    ensures t == Apply(s, {}, a) && Reachable(start, t)
  {
    t := Apply(s, {}, a);
    var schedule :| Execute(start, {}, schedule) == s;
    assert (schedule + [a])[..|schedule|] == schedule;
    assert Execute(start, {}, schedule + [a]) == t;
  }

  /** One submitted, billable detail that carries a task. */
  function OneDetail(): Sources {
    Sources(map[0 := Detail(1, true, true, None, None)], [])
  }

  function OneSave(): Call {
    SaveCall(None, [0], false)
  }

  lemma OneName()
    ensures NamesToLock(OneDetail(), {}, OneSave()) == [0]
  {
    AscendingIsUnique(NamesToLock(OneDetail(), {}, OneSave()), [0]);
  }

  lemma FirstSaveScopes() returns (s: State)
    ensures Reachable(OneDetail(), s) && s.requests == map[0 := Request(OneSave(), Locking([0], 0), OneDetail())]
    ensures s.db == Database(OneDetail(), map[])
  {
    hide Reachable;
    var s0 := State(Database(OneDetail(), map[]), map[]);
    assert Execute(OneDetail(), {}, []) == s0;
    OneName();
    s := Reach(OneDetail(), s0, Open(0, OneSave()));
    s := Reach(OneDetail(), s, Scope(0));
  }

  lemma FirstSave() returns (s: State)
    ensures Reachable(OneDetail(), s) && s.requests == map[0 := Request(OneSave(), Ready, OneDetail())]
    ensures s.db == Database(OneDetail(), map[DetailLock(0) := 0])
  {
    hide Reachable;
    var s0 := FirstSaveScopes();
    s := Reach(OneDetail(), s0, LockDetail(0));
    s := Reach(OneDetail(), s, Check(0));
  }

  lemma SecondSaveScopes() returns (s: State)
    ensures Reachable(OneDetail(), s) && s.requests.Keys == {0, 1}
    ensures s.db == Database(OneDetail(), map[DetailLock(0) := 0])
    ensures s.requests[0] == Request(OneSave(), Ready, OneDetail())
    ensures s.requests[1] == Request(OneSave(), Locking([0], 0), OneDetail())
  {
    hide Reachable;
    var s0 := FirstSave();
    OneName();
    s := Reach(OneDetail(), s0, Open(1, OneSave()));
    s := Reach(OneDetail(), s, Scope(1));
  }

  lemma SecondSaveWaits() returns (s: State)
    ensures Reachable(OneDetail(), s) && s.requests.Keys == {0, 1}
    ensures s.db == Database(OneDetail().(invoices := [Invoice(DraftDoc, [0])]), map[])
    ensures s.requests[0].pc == Committed
    ensures s.requests[1] == Request(OneSave(), Locking([0], 0), OneDetail())
  {
    hide Reachable;
    var s0 := SecondSaveScopes();
    s := Reach(OneDetail(), s0, LockDetail(1));
    s := Reach(OneDetail(), s, Commit(0));
  }

  /** The second save waits for the detail row, and is refused when it reads the first one's
      draft. */
  lemma SecondSaveIsRefused() returns (s: State)
    ensures Reachable(OneDetail(), s) && s.requests.Keys == {0, 1}
    ensures s.db.sources.invoices == [Invoice(DraftDoc, [0])]
    ensures s.requests[0].pc == Committed && s.requests[1].pc == Aborted
  {
    hide Reachable;
    var s0 := SecondSaveWaits();
    s := Reach(OneDetail(), s0, LockDetail(1));
    s := Reach(OneDetail(), s, Check(1));
    assert 0 in s0.db.sources.invoices[0].lines;
    assert ClaimedElsewhere(s0.db.sources, 0, None);
  }

  // ----- a submit and a cancellation -----

  function Billed(invoice: Option<InvoiceId>, docstatus: DocStatus): Sources {
    Sources(map[0 := Detail(1, true, true, None, invoice)], [Invoice(docstatus, [0])])
  }

  lemma LinesToLock(snap: Sources, call: Call)
    requires call == SubmitCall(0) || call == CancelCall(0)
    requires |snap.invoices| == 1 && snap.invoices[0].lines == [0] && OwnedIn(snap, {}, 0)
    ensures NamesToLock(snap, {}, call) == [0]
  {
    AscendingIsUnique(NamesToLock(snap, {}, call), [0]);
  }

  lemma BilledIsReachable(invoice: Option<InvoiceId>, docstatus: DocStatus)
    ensures Reachable(Billed(invoice, docstatus), State(Database(Billed(invoice, docstatus), map[]), map[]))
  {
    assert Execute(Billed(invoice, docstatus), {}, []) == State(Database(Billed(invoice, docstatus), map[]), map[]);
  }

  lemma SubmitOpens() returns (s: State)
    ensures Reachable(Billed(None, DraftDoc), s) && s.requests.Keys == {0}
    ensures s.db.sources == Billed(None, DraftDoc) && s.db.locks == map[InvoiceLock(0) := 0]
    ensures s.requests[0] == Request(SubmitCall(0), HasInvoice, Billed(None, DraftDoc))
  {
    BilledIsReachable(None, DraftDoc);
    hide Reachable;
    s := Reach(Billed(None, DraftDoc), State(Database(Billed(None, DraftDoc), map[]), map[]), Open(0, SubmitCall(0)));
    s := Reach(Billed(None, DraftDoc), s, LockInvoice(0));
  }

  lemma SubmitScopes() returns (s: State)
    ensures Reachable(Billed(None, DraftDoc), s) && s.requests.Keys == {0}
    ensures s.db.sources == Billed(None, DraftDoc) && s.db.locks == map[InvoiceLock(0) := 0]
    ensures s.requests[0] == Request(SubmitCall(0), Locking([0], 0), Billed(None, DraftDoc))
  {
    hide Reachable, NamesToLock, Write, ChecksPass, LinesOf, Fits;
    s := SubmitOpens();
    assert OwnedIn(Billed(None, DraftDoc), {}, 0);
    LinesToLock(Billed(None, DraftDoc), SubmitCall(0));
    s := Reach(Billed(None, DraftDoc), s, Scope(0));
  }

  lemma SubmitChecks() returns (s: State)
    ensures Reachable(Billed(None, DraftDoc), s) && s.requests.Keys == {0}
    ensures s.db.sources == Billed(None, DraftDoc)
    ensures s.requests[0] == Request(SubmitCall(0), Ready, Billed(None, DraftDoc))
  {
    hide Reachable, NamesToLock, Write;
    s := SubmitScopes();
    s := Reach(Billed(None, DraftDoc), s, LockDetail(0));
    assert s.requests[0].pc == Locking([0], 1);
    assert SourceOk(s.db.sources, 0, Some(0));
    s := Reach(Billed(None, DraftDoc), s, Check(0));
  }

  /** A submitted invoice leaves its stamp on its details, */
  lemma SubmitStamps() returns (s: State)
    ensures Reachable(Billed(None, DraftDoc), s) && s.db.sources == Billed(Some(0), SubmittedDoc)
  {
    hide Reachable;
    s := SubmitChecks();
    s := Reach(Billed(None, DraftDoc), s, Commit(0));
    assert s.db.sources.details == Billed(Some(0), SubmittedDoc).details;
  }

  lemma CancelOpens() returns (s: State)
    ensures Reachable(Billed(Some(0), SubmittedDoc), s) && s.requests.Keys == {0}
    ensures s.db.sources == Billed(Some(0), SubmittedDoc) && s.db.locks == map[InvoiceLock(0) := 0]
    ensures s.requests[0] == Request(CancelCall(0), HasInvoice, Billed(Some(0), SubmittedDoc))
  {
    BilledIsReachable(Some(0), SubmittedDoc);
    hide Reachable;
    s := Reach(Billed(Some(0), SubmittedDoc), State(Database(Billed(Some(0), SubmittedDoc), map[]), map[]), Open(0, CancelCall(0)));
    s := Reach(Billed(Some(0), SubmittedDoc), s, LockInvoice(0));
  }

  lemma CancelScopes() returns (s: State)
    ensures Reachable(Billed(Some(0), SubmittedDoc), s) && s.requests.Keys == {0}
    ensures s.db.sources == Billed(Some(0), SubmittedDoc) && s.db.locks == map[InvoiceLock(0) := 0]
    ensures s.requests[0] == Request(CancelCall(0), Locking([0], 0), Billed(Some(0), SubmittedDoc))
  {
    hide Reachable, NamesToLock, Write, ChecksPass, LinesOf, Fits;
    s := CancelOpens();
    assert OwnedIn(Billed(Some(0), SubmittedDoc), {}, 0);
    LinesToLock(Billed(Some(0), SubmittedDoc), CancelCall(0));
    s := Reach(Billed(Some(0), SubmittedDoc), s, Scope(0));
  }

  lemma CancelChecks() returns (s: State)
    ensures Reachable(Billed(Some(0), SubmittedDoc), s) && s.requests.Keys == {0}
    ensures s.db.sources == Billed(Some(0), SubmittedDoc)
    ensures s.requests[0] == Request(CancelCall(0), Ready, Billed(Some(0), SubmittedDoc))
  {
    hide Reachable, NamesToLock, Write;
    s := CancelScopes();
    s := Reach(Billed(Some(0), SubmittedDoc), s, LockDetail(0));
    assert s.requests[0].pc == Locking([0], 1);
    s := Reach(Billed(Some(0), SubmittedDoc), s, Check(0));
  }

  /** and a cancelled one takes it back. */
  lemma CancelUnstamps() returns (s: State)
    ensures Reachable(Billed(Some(0), SubmittedDoc), s) && s.db.sources == Billed(None, CancelledDoc)
  {
    hide Reachable;
    s := CancelChecks();
    s := Reach(Billed(Some(0), SubmittedDoc), s, Commit(0));
    assert s.db.sources.details == Billed(None, CancelledDoc).details;
  }
}
