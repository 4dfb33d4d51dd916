/** BP Milestone as a projection of ERPNext's Sales Invoices: what each lifecycle event does
    to the milestone rows, the lineage of amended invoices, and the 100% budget ceiling. */
module MilestoneBilling {
  import opened Basics
  import opened Rounding

  type MilestoneId = nat
  type ProjectId = nat

  /** Invoices are numbered in the order of their creation, so a name is never used twice. */
  type InvoiceId = nat

  datatype DocStatus = DraftDoc | SubmittedDoc | CancelledDoc | DeletedDoc

  /** `bills` is the milestone an invoice was drafted for; an amendment copies it with the lines. */
  datatype Invoice = Invoice(docstatus: DocStatus, amendedFrom: Option<InvoiceId>, bills: Option<MilestoneId>)

  datatype BillingType = NoBilling | FixedAmount | PercentOfBudget

  datatype BillingStatus = NotInvoiced | Draft | Invoiced

  datatype Milestone = Milestone(
    project: ProjectId,
    completed: bool,
    billing: BillingType,
    percent: real,
    status: BillingStatus,
    invoice: Option<InvoiceId>)

  datatype Books = Books(milestones: seq<Milestone>, invoices: seq<Invoice>)

  datatype Refusal = NotCompleted | NoBillingType | AlreadyInvoiced | NotLinked | NoClient | OverBudget | NoIncomeAccount

  // ----- what the rows say -----

  predicate Active(m: Milestone) {
    m.status == Draft || m.status == Invoiced
  }

  predicate Exists(invoices: seq<Invoice>, i: InvoiceId) {
    i < |invoices| && invoices[i].docstatus != DeletedDoc
  }

  /** Draft or submitted: an invoice that reserves what it bills. */
  predicate LiveInvoice(invoices: seq<Invoice>, i: InvoiceId) {
    i < |invoices| && (invoices[i].docstatus == DraftDoc || invoices[i].docstatus == SubmittedDoc)
  }

  /** The canonical state of a milestone that points at `pointer`. */
  function InvoiceState(invoices: seq<Invoice>, pointer: Option<InvoiceId>): (BillingStatus, Option<InvoiceId>) {
    if pointer.None? || !Exists(invoices, pointer.value) then (NotInvoiced, None)
    else match invoices[pointer.value].docstatus
      case DraftDoc => (Draft, pointer)
      case SubmittedDoc => (Invoiced, pointer)
      case _ => (NotInvoiced, pointer)
  }

  predicate PointsAt(b: Books, m: MilestoneId, i: InvoiceId) {
    m < |b.milestones| && b.milestones[m].invoice == Some(i)
  }

  /** What milestone `m` reserves of project `p`'s budget. */
  function Share(m: Milestone, p: ProjectId): real {
    if m.project == p && m.billing == PercentOfBudget && Active(m) then m.percent else 0.0
  }

  function Reserved(milestones: seq<Milestone>, p: ProjectId, exclude: Option<MilestoneId>): real {
    if milestones == [] then 0.0
    else
      var n := |milestones| - 1;
      Reserved(milestones[..n], p, exclude) + if exclude == Some(n) then 0.0 else Share(milestones[n], p)
  }

  /** The budget check: both figures are rounded to the three decimals of the field. */
  predicate Fits(already: real, requested: real) {
    Round3(Round3(already) + Round3(requested)) <= 100.0
  }

  predicate HasCapacity(milestones: seq<Milestone>, m: MilestoneId)
    requires m < |milestones|
  {
    milestones[m].billing == PercentOfBudget ==>
      Fits(Reserved(milestones, milestones[m].project, Some(m)), milestones[m].percent)
  }

  // ----- what each committed transaction does -----

  function SetState(b: Books, m: MilestoneId, status: BillingStatus, invoice: Option<InvoiceId>): Books
    requires m < |b.milestones|
  {
    b.(milestones := b.milestones[m := b.milestones[m].(status := status, invoice := invoice)])
  }

  function SetDoc(b: Books, i: InvoiceId, docstatus: DocStatus): Books
    requires i < |b.invoices|
  {
    b.(invoices := b.invoices[i := b.invoices[i].(docstatus := docstatus)])
  }

  /** What a new draft bills: the lines of the invoice it amends, else those of its milestone. */
  function Subject(b: Books, amendedFrom: Option<InvoiceId>, claim: Option<MilestoneId>): Option<MilestoneId> {
    if amendedFrom.None? then claim
    else if amendedFrom.value < |b.invoices| then b.invoices[amendedFrom.value].bills
    else None
  }

  /** A new draft, claimed by the milestone `claim` when there is one. */
  function Insert(b: Books, amendedFrom: Option<InvoiceId>, claim: Option<MilestoneId>): Books
    requires claim.Some? ==> claim.value < |b.milestones|
  {
    var c := b.(invoices := b.invoices + [Invoice(DraftDoc, amendedFrom, Subject(b, amendedFrom, claim))]);
    if claim.Some? then SetState(c, claim.value, Draft, Some(|b.invoices|)) else c
  }

  function StatusAfter(to: DocStatus): BillingStatus {
    if to == SubmittedDoc then Invoiced else NotInvoiced
  }

  /** A submit, cancel or trash of invoice `i`, followed by the milestone that claims it. */
  function Transition(b: Books, i: InvoiceId, to: DocStatus, claim: Option<MilestoneId>): Books
    requires i < |b.invoices| && (claim.Some? ==> claim.value < |b.milestones|)
  {
    var c := SetDoc(b, i, to);
    if claim.None? then c else
    SetState(c, claim.value, StatusAfter(to), if to == DeletedDoc then b.invoices[i].amendedFrom else Some(i))
  }

  /** docstatus moves 0→1→2; only drafts and cancelled documents may be deleted. */
  predicate Legal(from: DocStatus, to: DocStatus) {
    || (from == DraftDoc && to == SubmittedDoc)
    || (from == SubmittedDoc && to == CancelledDoc)
    || ((from == DraftDoc || from == CancelledDoc) && to == DeletedDoc)
  }

  // ----- the events on the table -----

  class MilestoneTable {
    var books: Books

    /** The first milestone that points at `i`. */
    method Find(i: InvoiceId) returns (found: Option<MilestoneId>)
      ensures found.Some? ==> PointsAt(books, found.value, i)
      ensures found.None? ==> forall m :: !PointsAt(books, m, i)
    {
      for m := 0 to |books.milestones|
        invariant forall k :: 0 <= k < m ==> !PointsAt(books, k, i)
      {
        if books.milestones[m].invoice == Some(i) {
          return Some(m);
        }
      }
      return None;
    }

    /** The live reservation of a project, as one pass over its active percentage rows. */
    method ReservedPercent(p: ProjectId, exclude: Option<MilestoneId>) returns (total: real)
      ensures total == Reserved(books.milestones, p, exclude)
    {
      total := 0.0;
      for n := 0 to |books.milestones|
        invariant total == Reserved(books.milestones[..n], p, exclude)
      {
        assert books.milestones[..n + 1][..n] == books.milestones[..n];
        var m := books.milestones[n];
        if m.project == p && m.billing == PercentOfBudget && Active(m) && exclude != Some(n) {
          total := total + m.percent;
        }
      }
      assert books.milestones[..|books.milestones|] == books.milestones;
    }

    method AssertPercentCapacity(m: MilestoneId) returns (ok: bool)
      requires m < |books.milestones| && books.milestones[m].billing == PercentOfBudget
      ensures ok <==> HasCapacity(books.milestones, m)
      ensures var row := books.milestones[m];
        ok <==> Round3(Round3(Reserved(books.milestones, row.project, Some(m))) + Round3(row.percent)) <= 100.0
    {
      var already := ReservedPercent(books.milestones[m].project, Some(m));
      already := Round3(already);
      var requested := Round3(books.milestones[m].percent);
      ok := Round3(already + requested) <= 100.0;
    }

    /** Draft an invoice for a completed, billable, uninvoiced milestone within its budget, when
        its project has an ERPNext project, a client and an income account. */
    method Generate(m: MilestoneId, linked: bool, client: bool, account: bool) returns (r: Result<InvoiceId, Refusal>)
      requires m < |books.milestones|
      modifies this
      ensures r.Raised? ==> books == old(books)
      ensures r.Ok? <==> var row := old(books).milestones[m];
        && row.completed && row.billing != NoBilling && !Active(row) && HasCapacity(old(books).milestones, m)
        && linked && client && account
      ensures r.Ok? ==> r.value == |old(books).invoices| && books == Insert(old(books), None, Some(m))
      ensures var row := old(books).milestones[m];
        if !row.completed then r == Raised(NotCompleted)
        else if row.billing == NoBilling then r == Raised(NoBillingType)
        else if row.status != NotInvoiced then r == Raised(AlreadyInvoiced)
        else if !linked then r == Raised(NotLinked)
        else if !client then r == Raised(NoClient)
        else if row.billing == PercentOfBudget
          && Round3(Round3(Reserved(old(books).milestones, row.project, Some(m))) + Round3(row.percent)) > 100.0
        then r == Raised(OverBudget)
        else if !account then r == Raised(NoIncomeAccount)
        else
          && r == Ok(|old(books).invoices|)
          && books.milestones == old(books).milestones[m := row.(status := Draft, invoice := Some(r.value))]
          && books.invoices == old(books).invoices + [Invoice(DraftDoc, None, Some(m))]
    {
      var row := books.milestones[m];
      if !row.completed {
        return Raised(NotCompleted);
      }
      if row.billing == NoBilling {
        return Raised(NoBillingType);
      }
      if row.status == Draft || row.status == Invoiced {
        return Raised(AlreadyInvoiced);
      }
      if !linked {
        return Raised(NotLinked);
      }
      if !client {
        return Raised(NoClient);
      }
      if row.billing == PercentOfBudget {
        var ok := AssertPercentCapacity(m);
        if !ok {
          return Raised(OverBudget);
        }
      }
      if !account {
        return Raised(NoIncomeAccount);
      }
      var i := |books.invoices|;
      books := books.(invoices := books.invoices + [Invoice(DraftDoc, None, Some(m))]);
      books := SetState(books, m, Draft, Some(i));
      return Ok(i);
    }

    /** ERPNext submits, cancels or deletes invoice `i`, and its hook follows. */
    method OnTransition(i: InvoiceId, to: DocStatus) returns (claimed: bool)
      requires i < |books.invoices| && Legal(books.invoices[i].docstatus, to)
      modifies this
      ensures claimed <==> exists m :: PointsAt(old(books), m, i)
      ensures !claimed ==> books == Transition(old(books), i, to, None)
      ensures claimed ==> exists m :: PointsAt(old(books), m, i) && books == Transition(old(books), i, to, Some(m))
      ensures books.invoices == old(books).invoices[i := old(books).invoices[i].(docstatus := to)]
      ensures !claimed ==> books.milestones == old(books).milestones
      ensures claimed ==>
        var status := if to == SubmittedDoc then Invoiced else NotInvoiced;
        var pointer := if to == DeletedDoc then old(books).invoices[i].amendedFrom else Some(i);
        exists m :: 0 <= m < |old(books).milestones| && old(books).milestones[m].invoice == Some(i) && books.milestones ==
          old(books).milestones[m := old(books).milestones[m].(status := status, invoice := pointer)]
    {
      var found := Find(i);
      ghost var before := books;
      books := SetDoc(books, i, to);
      claimed := found.Some?;
      if claimed {
        var pointer := if to == DeletedDoc then books.invoices[i].amendedFrom else Some(i);
        books := SetState(books, found.value, StatusAfter(to), pointer);
        assert books == Transition(before, i, to, Some(found.value));
      }
    }

    /** A draft amended from `predecessor` takes over the milestone that still points there,
        if the budget still has room for it; a stale amendment takes nothing. */
    method OnAmend(predecessor: InvoiceId) returns (r: Result<Option<MilestoneId>, Refusal>)
      requires predecessor < |books.invoices|
      modifies this
      ensures r.Raised? ==> books == old(books)
      ensures r.Raised? ==> exists m :: PointsAt(old(books), m, predecessor) && !HasCapacity(old(books).milestones, m)
      ensures r.Ok? && r.value.None? ==>
        (forall m :: !PointsAt(old(books), m, predecessor)) && books == Insert(old(books), Some(predecessor), None)
      ensures r.Ok? && r.value.Some? ==>
        && PointsAt(old(books), r.value.value, predecessor) && HasCapacity(old(books).milestones, r.value.value)
        && books == Insert(old(books), Some(predecessor), r.value)
      ensures r.Raised? ==> r.error == OverBudget
      ensures r.Ok? ==>
        && books.invoices == old(books).invoices + [Invoice(DraftDoc, Some(predecessor), old(books).invoices[predecessor].bills)]
        && match r.value
           case None => books.milestones == old(books).milestones
           case Some(m) =>
             && m < |old(books).milestones| && old(books).milestones[m].invoice == Some(predecessor)
             && books.milestones == old(books).milestones[m :=
                  old(books).milestones[m].(status := Draft, invoice := Some(|old(books).invoices|))]
    {
      var found := Find(predecessor);
      if found.Some? && books.milestones[found.value].billing == PercentOfBudget {
        var ok := AssertPercentCapacity(found.value);
        if !ok {
          return Raised(OverBudget);
        }
      }
      var i := |books.invoices|;
      books := books.(invoices := books.invoices + [Invoice(DraftDoc, Some(predecessor), books.invoices[predecessor].bills)]);
      if found.Some? {
        books := SetState(books, found.value, Draft, Some(i));
      }
      return Ok(found);
    }

    /** Repair one milestone from the invoice it points at; a second repair changes nothing. */
    method Reconcile(m: MilestoneId)
      requires m < |books.milestones|
      modifies this
      ensures books.invoices == old(books).invoices
      ensures |books.milestones| == |old(books).milestones|
      ensures forall k :: 0 <= k < |books.milestones| && k != m ==> books.milestones[k] == old(books).milestones[k]
      ensures (books.milestones[m].status, books.milestones[m].invoice)
           == InvoiceState(books.invoices, old(books).milestones[m].invoice)
           == InvoiceState(books.invoices, books.milestones[m].invoice)
      ensures var row := old(books).milestones[m];
        books == old(books) <==> InvoiceState(books.invoices, row.invoice) == (row.status, row.invoice)
      ensures var pointer, row := old(books).milestones[m].invoice, books.milestones[m];
        && row == old(books).milestones[m].(status := row.status, invoice := row.invoice)
        && if pointer == None || pointer.value >= |books.invoices| then row.status == NotInvoiced && row.invoice == None
           else match books.invoices[pointer.value].docstatus
             case DraftDoc => row.status == Draft && row.invoice == pointer
             case SubmittedDoc => row.status == Invoiced && row.invoice == pointer
             case CancelledDoc => row.status == NotInvoiced && row.invoice == pointer
             case DeletedDoc => row.status == NotInvoiced && row.invoice == None
    {
      var row := books.milestones[m];
      var (status, invoice) := InvoiceState(books.invoices, row.invoice);
      if row.status != status || row.invoice != invoice {
        books := SetState(books, m, status, invoice);
      } else {
        assert books.milestones[m := row] == books.milestones;
      }
    }

    /** The check before a deletion: on sound books it passes exactly when the milestone points
        at no live invoice. */
    method Deletable(m: MilestoneId) returns (ok: bool)
      requires m < |books.milestones|
      ensures ok <==> books.milestones[m].status == NotInvoiced
      ensures BooksOk(books) ==> (ok <==> forall i: InvoiceId :: PointsAt(books, m, i) ==> !LiveInvoice(books.invoices, i))
    {
      if BooksOk(books) {
        InactiveMeansNoLiveInvoice(books, m);
      }
      ok := !(books.milestones[m].status == Draft || books.milestones[m].status == Invoiced);
    }
  }

  // ----- the invariant of the books -----

  /** Every amendment is younger than what it amends, which is no longer live. */
  ghost predicate LineageOk(invoices: seq<Invoice>) {
    forall i :: 0 <= i < |invoices| && invoices[i].amendedFrom.Some? ==>
      invoices[i].amendedFrom.value < i && !LiveInvoice(invoices, invoices[i].amendedFrom.value)
  }

  ghost predicate Younger(invoices: seq<Invoice>) {
    forall i :: 0 <= i < |invoices| && invoices[i].amendedFrom.Some? ==> invoices[i].amendedFrom.value < i
  }

  /** The first invoice of `i`'s amendment lineage. */
  ghost function Root(invoices: seq<Invoice>, i: InvoiceId): InvoiceId
    requires i < |invoices| && Younger(invoices)
    decreases i
  {
    if invoices[i].amendedFrom.None? then i else Root(invoices, invoices[i].amendedFrom.value)
  }

  ghost predicate PointerOk(b: Books, m: MilestoneId)
    requires m < |b.milestones|
  {
    b.milestones[m].invoice.Some? ==> b.milestones[m].invoice.value < |b.invoices|
  }

  /** The stored status is the one derived from the invoice. */
  ghost predicate Projects(b: Books, m: MilestoneId)
    requires m < |b.milestones|
  {
    b.milestones[m].status == InvoiceState(b.invoices, b.milestones[m].invoice).0
  }

  ghost predicate RootsApart(b: Books, m: MilestoneId, k: MilestoneId)
    requires Younger(b.invoices) && m < |b.milestones| && k < |b.milestones| && PointerOk(b, m) && PointerOk(b, k)
  {
    m != k && b.milestones[m].invoice.Some? && b.milestones[k].invoice.Some? ==>
      Root(b.invoices, b.milestones[m].invoice.value) != Root(b.invoices, b.milestones[k].invoice.value)
  }

  ghost predicate RowsOk(b: Books) {
    forall m :: 0 <= m < |b.milestones| ==> PointerOk(b, m) && Projects(b, m) && b.milestones[m].percent >= 0.0
  }

  ghost predicate LineagesApart(b: Books)
    requires Younger(b.invoices) && RowsOk(b)
  {
    forall m, k :: 0 <= m < |b.milestones| && 0 <= k < |b.milestones| ==> RootsApart(b, m, k)
  }

  function Cut(m: Milestone): Milestone {
    m.(percent := Cut3(m.percent))
  }

  function CutAll(milestones: seq<Milestone>): seq<Milestone> {
    seq(|milestones|, k requires 0 <= k < |milestones| => Cut(milestones[k]))
  }

  /** To the precision of the field no project reserves more than 100; exactly, rounding may
      have added a thousandth. */
  ghost predicate InBudget(milestones: seq<Milestone>, p: ProjectId) {
    Reserved(milestones, p, None) <= 100.001 && Reserved(CutAll(milestones), p, None) <= 100.0
  }

  ghost predicate WithinBudget(milestones: seq<Milestone>) {
    forall p: ProjectId :: InBudget(milestones, p)
  }

  ghost predicate BooksOk(b: Books) {
    LineageOk(b.invoices) && RowsOk(b) && LineagesApart(b) && WithinBudget(b.milestones)
  }

  /** No two milestones point at the same invoice. */
  lemma PointersAreDistinct(b: Books, m: MilestoneId, k: MilestoneId)
    requires BooksOk(b) && m < |b.milestones| && k < |b.milestones| && m != k
    requires b.milestones[m].invoice.Some?
    ensures b.milestones[m].invoice != b.milestones[k].invoice
  {
    assert RootsApart(b, m, k);
  }

  lemma InactiveMeansNoLiveInvoice(b: Books, m: MilestoneId)
    requires BooksOk(b) && m < |b.milestones|
    ensures !Active(b.milestones[m]) <==> forall i: InvoiceId :: PointsAt(b, m, i) ==> !LiveInvoice(b.invoices, i)
  {
    assert PointerOk(b, m) && Projects(b, m);
    if b.milestones[m].invoice.Some? {
      assert PointsAt(b, m, b.milestones[m].invoice.value);
    }
  }

  /** Trashing an amendment steps back: the milestone is exactly as before the amendment. */
  lemma TrashUndoesAmend(b: Books, predecessor: InvoiceId, m: MilestoneId)
    requires predecessor < |b.invoices| && PointsAt(b, m, predecessor) && b.milestones[m].status == NotInvoiced
    ensures var c := Insert(b, Some(predecessor), Some(m));
      && Legal(c.invoices[|b.invoices|].docstatus, DeletedDoc)
      && Transition(c, |b.invoices|, DeletedDoc, Some(m)).milestones == b.milestones
  {
    var c := Insert(b, Some(predecessor), Some(m));
    var d := Transition(c, |b.invoices|, DeletedDoc, Some(m));
    assert d.milestones[m] == b.milestones[m];
  }

  // ----- sums and lineages under updates -----

  /** Replacing one row moves the reservation by exactly the difference of the two shares. */
  lemma {:induction false} ReservedAfterUpdate(ms: seq<Milestone>, m: MilestoneId, x: Milestone, p: ProjectId, exclude: Option<MilestoneId>)
    requires m < |ms|
    ensures Reserved(ms[m := x], p, exclude)
         == Reserved(ms, p, exclude) + if exclude == Some(m) then 0.0 else Share(x, p) - Share(ms[m], p)
  {
    var n := |ms| - 1;
    if m < n {
      assert ms[m := x][..n] == ms[..n][m := x];
      ReservedAfterUpdate(ms[..n], m, x, p, exclude);
    } else {
      assert ms[m := x][..n] == ms[..n];
    }
  }

  /** What one more row adds to the reservation: its percentage, if it is a percentage row of the
      project that is drafted or invoiced, and not the excluded one. */
  lemma ReservedCounts(ms: seq<Milestone>, x: Milestone, p: ProjectId, exclude: Option<MilestoneId>)
    ensures Reserved(ms + [x], p, exclude) == Reserved(ms, p, exclude) +
      if x.project == p && x.billing == PercentOfBudget && (x.status == Draft || x.status == Invoiced) && exclude != Some(|ms|)
      then x.percent else 0.0
    ensures Reserved([], p, exclude) == 0.0
  {
    assert (ms + [x])[..|ms|] == ms;
  }

  lemma {:induction false} ReservedWithout(ms: seq<Milestone>, p: ProjectId, m: MilestoneId)
    ensures Reserved(ms, p, None) == Reserved(ms, p, Some(m)) + if m < |ms| then Share(ms[m], p) else 0.0
  {
    if ms != [] {
      ReservedWithout(ms[..|ms| - 1], p, m);
    }
  }

  lemma {:induction false} ReservesNoMore(a: seq<Milestone>, b: seq<Milestone>, p: ProjectId, exclude: Option<MilestoneId>)
    requires |a| == |b| && forall k :: 0 <= k < |a| && exclude != Some(k) ==> Share(a[k], p) <= Share(b[k], p)
    ensures Reserved(a, p, exclude) <= Reserved(b, p, exclude)
  {
    if a != [] {
      ReservesNoMore(a[..|a| - 1], b[..|b| - 1], p, exclude);
    }
  }

  // ----- the budget -----

  /** Row `x` reserves no more than row `y`, whatever the project. */
  predicate NoMore(x: Milestone, y: Milestone) {
    if x.billing == PercentOfBudget && Active(x) then
      y.billing == PercentOfBudget && Active(y) && x.project == y.project && x.percent <= y.percent
    else
      y.percent >= 0.0 || !Active(y)
  }

  lemma NoMoreShare(x: Milestone, y: Milestone, p: ProjectId)
    requires NoMore(x, y)
    ensures Share(x, p) <= Share(y, p) && Share(Cut(x), p) <= Share(Cut(y), p)
  {
    Cut3IsBelow(y.percent);
    if x.percent <= y.percent {
      Cut3KeepsOrder(x.percent, y.percent);
    }
  }

  /** Rows that reserve no more than others keep every project in budget. */
  lemma BudgetShrinks(a: seq<Milestone>, b: seq<Milestone>)
    requires WithinBudget(b) && |a| == |b| && forall k :: 0 <= k < |a| ==> a[k] == b[k] || NoMore(a[k], b[k])
    ensures WithinBudget(a)
  {
    forall p: ProjectId ensures InBudget(a, p) {
      assert InBudget(b, p);
      forall k | 0 <= k < |a| ensures Share(a[k], p) <= Share(b[k], p) && Share(Cut(a[k]), p) <= Share(Cut(b[k]), p) {
        if a[k] != b[k] {
          NoMoreShare(a[k], b[k], p);
        }
      }
      ReservesNoMore(a, b, p, None);
      ReservesNoMore(CutAll(a), CutAll(b), p, None);
    }
  }

  /** The cut rows reserve whole thousandths, and no more than the rows themselves. */
  lemma {:induction false} CutReserves(ms: seq<Milestone>, p: ProjectId, exclude: Option<MilestoneId>)
    ensures Thousandths(Reserved(CutAll(ms), p, exclude)) && Reserved(CutAll(ms), p, exclude) <= Reserved(ms, p, exclude)
  {
    if ms != [] {
      var n := |ms| - 1;
      assert CutAll(ms)[..n] == CutAll(ms[..n]);
      CutReserves(ms[..n], p, exclude);
      Cut3IsBelow(ms[n].percent);
      if exclude != Some(n) {
        ThousandthsAdd(Reserved(CutAll(ms[..n]), p, exclude), Share(Cut(ms[n]), p));
      }
    }
  }

  /** What a passed check means for the sum, and for the sum of the cut figures. */
  lemma FitsMeans(already: real, requested: real, below: real)
    requires Fits(already, requested) && Thousandths(below) && below <= already
    ensures already + requested <= 100.001 && below + Cut3(requested) <= 100.0
  {
    Round3IsClose(already);
    Round3IsClose(requested);
    ThousandthsAdd(Round3(already), Round3(requested));
    ThousandthsStay(Round3(already) + Round3(requested));
    Round3KeepsOrder(below, already);
    ThousandthsStay(below);
    Cut3IsBelow(requested);
  }

  lemma FitsBeside(fewer: real, already: real, requested: real)
    requires Fits(already, requested) && fewer <= already
    ensures Fits(fewer, requested)
  {
    Round3KeepsOrder(fewer, already);
    Round3KeepsOrder(Round3(fewer) + Round3(requested), Round3(already) + Round3(requested));
  }

  /** For figures in whole thousandths the check is the plain comparison. */
  lemma FitsIsExact(already: real, requested: real)
    requires Thousandths(already) && Thousandths(requested)
    ensures Fits(already, requested) <==> already + requested <= 100.0
  {
    ThousandthsStay(already);
    ThousandthsStay(requested);
    ThousandthsAdd(already, requested);
    ThousandthsStay(already + requested);
  }

  /** Every percentage that counts for project `p` has at most three decimals. */
  ghost predicate ThreeDecimals(milestones: seq<Milestone>, p: ProjectId) {
    forall k :: 0 <= k < |milestones| && Share(milestones[k], p) != 0.0 ==> Thousandths(milestones[k].percent)
  }

  /** For such percentages the budget is 100 exactly. */
  lemma InBudgetExactly(ms: seq<Milestone>, p: ProjectId)
    requires ThreeDecimals(ms, p) && InBudget(ms, p)
    ensures Reserved(ms, p, None) <= 100.0
  {
    forall k | 0 <= k < |ms| ensures Share(ms[k], p) <= Share(CutAll(ms)[k], p) {
      if Share(ms[k], p) != 0.0 {
        ThousandthsStay(ms[k].percent);
      } else {
        assert Cut3(0.0) == 0.0;
      }
    }
    ReservesNoMore(ms, CutAll(ms), p, None);
  }

  /** The bound of a thousandth is reached: two figures that a tie rounds down both fit. */
  lemma RoundingAddsAThousandth()
    ensures Fits(50.0005, 50.0005) && 50.0005 + 50.0005 == 100.001
  {
    assert Round3(50.0005) == 50.0;
  }

  /** Activating a row that has capacity keeps every project in budget. */
  lemma BudgetAfterClaim(ms: seq<Milestone>, m: MilestoneId, x: Milestone)
    requires WithinBudget(ms) && m < |ms| && ms[m].percent >= 0.0 && HasCapacity(ms, m)
    requires x == ms[m].(status := x.status, invoice := x.invoice)
    ensures WithinBudget(ms[m := x])
  {
    var after := ms[m := x];
    Cut3IsBelow(x.percent);
    forall p: ProjectId ensures InBudget(after, p) {
      assert InBudget(ms, p);
      assert CutAll(after) == CutAll(ms)[m := Cut(x)];
      ReservedAfterUpdate(ms, m, x, p, None);
      ReservedAfterUpdate(CutAll(ms), m, Cut(x), p, None);
      ReservedWithout(ms, p, m);
      ReservedWithout(CutAll(ms), p, m);
      CutReserves(ms, p, Some(m));
      if p == x.project && x.billing == PercentOfBudget {
        FitsMeans(Reserved(ms, p, Some(m)), x.percent, Reserved(CutAll(ms), p, Some(m)));
      }
    }
  }

  /** A lineage depends only on the amendment links below it. */
  lemma {:induction false} RootStays(a: seq<Invoice>, b: seq<Invoice>, i: InvoiceId)
    requires i < |a| <= |b| && Younger(a) && Younger(b)
    requires forall k :: 0 <= k < |a| ==> a[k].amendedFrom == b[k].amendedFrom
    ensures Root(a, i) == Root(b, i)
    decreases i
  {
    if a[i].amendedFrom.Some? {
      RootStays(a, b, a[i].amendedFrom.value);
    }
  }

  lemma {:induction false} RootIsOld(invoices: seq<Invoice>, i: InvoiceId)
    requires i < |invoices| && Younger(invoices)
    ensures Root(invoices, i) <= i
    decreases i
  {
    if invoices[i].amendedFrom.Some? {
      RootIsOld(invoices, invoices[i].amendedFrom.value);
    }
  }
}
