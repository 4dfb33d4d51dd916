/** Reachable runs of the milestone transactions: two generators racing for one budget, a tie in
    the rounding of the budget check, bulk repairs from an old snapshot, and an amendment beside
    a new draft. */
module MilestoneRuns {
  import opened Basics
  import opened MilestoneBilling
  import opened MilestoneClaims
  import opened MilestoneProtocol
  import opened Rounding

  ghost predicate Reachable(start: Books, s: State) {
    exists schedule :: Execute(start, schedule) == s
  }

  lemma Reach(start: Books, s: State, a: Action) returns (t: State)
    requires Reachable(start, s)
    ensures t == Apply(s, a) && Reachable(start, t)
  {
    t := Apply(s, a);
    var schedule :| Execute(start, schedule) == s;
    assert (schedule + [a])[..|schedule|] == schedule;
    assert Execute(start, schedule + [a]) == t;
  }

  lemma Opens(start: Books, s: State, w: WorkerId, call: Call) returns (t: State)
    requires Reachable(start, s) && w !in s.requests
    ensures Reachable(start, t) && t.db == s.db
    ensures t.requests == s.requests[w := Request(call, Opened, s.db.books)]
  {
    t := Reach(start, s, Open(w, call));
  }

  lemma Steps(start: Books, s: State, a: Action) returns (t: State)
    requires Reachable(start, s) && a.w in s.requests
    ensures Reachable(start, t) && t.db == Move(s.db, s.requests[a.w], a).0
    ensures t.requests == s.requests[a.w := Move(s.db, s.requests[a.w], a).1]
  {
    t := Reach(start, s, a);
  }

  function Start(b: Books): State {
    State(Database(b, map[]), map[])
  }

  lemma StartIsReachable(b: Books)
    ensures Reachable(b, Start(b))
  {
    assert Execute(b, []) == Start(b);
  }

  // ----- two generators and one budget -----

  function Uninvoiced(): Milestone {
    Milestone(0, true, PercentOfBudget, 60.0, NotInvoiced, None)
  }

  function TwoMilestones(): Books {
    Books([Uninvoiced(), Uninvoiced()], [])
  }

  lemma ReservedOfTwo(a: Milestone, b: Milestone, exclude: Option<MilestoneId>)
    ensures Reserved([a, b], 0, exclude)
         == (if exclude == Some(0) then 0.0 else Share(a, 0)) + (if exclude == Some(1) then 0.0 else Share(b, 0))
  {
    assert [a, b][..1] == [a];
    assert [a][..0] == [];
    assert Reserved([a], 0, exclude) == if exclude == Some(0) then 0.0 else Share(a, 0);
  }

  lemma FirstLocks() returns (s: State)
    ensures Reachable(TwoMilestones(), s) && s.requests.Keys == {0}
    ensures s.db == Database(TwoMilestones(), map[ProjectRow(0) := 0, MilestoneRow(0) := 0])
    ensures s.requests[0] == Request(GenerateCall(0), HasMilestone(0), TwoMilestones())
  {
    hide Reachable;
    StartIsReachable(TwoMilestones());
    s := Opens(TwoMilestones(), Start(TwoMilestones()), 0, GenerateCall(0));
    s := Steps(TwoMilestones(), s, LockProject(0));
    s := Steps(TwoMilestones(), s, LockMilestone(0));
  }

  lemma FirstGenerator() returns (s: State)
    ensures Reachable(TwoMilestones(), s) && s.requests.Keys == {0}
    ensures s.db == Database(TwoMilestones(), map[ProjectRow(0) := 0, MilestoneRow(0) := 0])
    ensures s.requests[0] == Request(GenerateCall(0), Ready(Creates(None, Some(0))), TwoMilestones())
  {
    hide Reachable;
    var s0 := FirstLocks();
    s := Steps(TwoMilestones(), s0, Decide(0));
    ReservedOfTwo(Uninvoiced(), Uninvoiced(), Some(0));
  }

  function FirstDrafted(): Books {
    Books([Uninvoiced().(status := Draft, invoice := Some(0)), Uninvoiced()], [Invoice(DraftDoc, None, Some(0))])
  }

  lemma SecondGeneratorOpens() returns (s: State)
    ensures Reachable(TwoMilestones(), s) && s.requests.Keys == {0, 1}
    ensures s.db == Database(TwoMilestones(), map[ProjectRow(0) := 0, MilestoneRow(0) := 0])
    ensures s.requests[0] == Request(GenerateCall(0), Ready(Creates(None, Some(0))), TwoMilestones())
    ensures s.requests[1] == Request(GenerateCall(1), Opened, TwoMilestones())
  {
    hide Reachable;
    s := FirstGenerator();
    s := Opens(TwoMilestones(), s, 1, GenerateCall(1));
    s := Steps(TwoMilestones(), s, LockProject(1));
  }

  lemma SecondGeneratorWaits() returns (s: State)
    ensures Reachable(TwoMilestones(), s) && s.requests.Keys == {0, 1}
    ensures s.db == Database(FirstDrafted(), map[]) && s.requests[0].pc == Committed
    ensures s.requests[1] == Request(GenerateCall(1), Opened, TwoMilestones())
  {
    hide Reachable;
    s := SecondGeneratorOpens();
    s := Steps(TwoMilestones(), s, Commit(0));
    assert s.db.books.milestones == FirstDrafted().milestones;
  }

  lemma SecondGeneratorLocks() returns (s: State)
    ensures Reachable(TwoMilestones(), s) && s.requests.Keys == {0, 1}
    ensures s.db.books == FirstDrafted() && s.requests[0].pc == Committed
    ensures s.requests[1] == Request(GenerateCall(1), HasMilestone(1), TwoMilestones())
  {
    hide Reachable;
    var s0 := SecondGeneratorWaits();
    s := Steps(TwoMilestones(), s0, LockProject(1));
    s := Steps(TwoMilestones(), s, LockMilestone(1));
  }

  /** Two milestones of 60% each: the first generator has passed its check, the second waits
      for the project row, and is refused when it reads the first one's commit. */
  lemma SecondGeneratorIsRefused() returns (s: State)
    ensures Reachable(TwoMilestones(), s) && s.requests.Keys == {0, 1}
    ensures s.db.books == FirstDrafted() && s.requests[0].pc == Committed && s.requests[1].pc == Aborted
  {
    hide Reachable;
    var s0 := SecondGeneratorLocks();
    s := Steps(TwoMilestones(), s0, Decide(1));
    ReservedOfTwo(FirstDrafted().milestones[0], Uninvoiced(), Some(1));
  }

  // ----- a tie in the rounding of the check -----

  function Halves(status: BillingStatus, invoice: Option<InvoiceId>): Milestone {
    Milestone(0, true, PercentOfBudget, 50.0005, status, invoice)
  }

  function OneHalf(): Books {
    Books([Halves(Draft, Some(0)), Halves(NotInvoiced, None)], [Invoice(DraftDoc, None, Some(0))])
  }

  lemma OneHalfIsOk()
    ensures BooksOk(OneHalf())
  {
    var ms := OneHalf().milestones;
    forall p: ProjectId ensures InBudget(ms, p) {
      assert ms[..1][..0] == [] && CutAll(ms)[..1][..0] == [];
      assert Reserved(ms[..1], p, None) == Share(ms[0], p);
      assert Cut3(50.0005) == 50.0;
      assert Reserved(CutAll(ms)[..1], p, None) == Share(CutAll(ms)[0], p);
    }
  }

  lemma HalfLocks() returns (s: State)
    ensures Reachable(OneHalf(), s) && s.requests.Keys == {0} && s.db.books == OneHalf()
    ensures s.requests[0] == Request(GenerateCall(1), HasMilestone(1), OneHalf())
  {
    StartIsReachable(OneHalf());
    hide Reachable;
    s := Opens(OneHalf(), Start(OneHalf()), 0, GenerateCall(1));
    s := Steps(OneHalf(), s, LockProject(0));
    assert s.requests[0].pc == HasProject(1, 0);
    s := Steps(OneHalf(), s, LockMilestone(0));
  }

  lemma HalfPasses() returns (s: State)
    ensures Reachable(OneHalf(), s) && s.requests.Keys == {0} && s.db.books == OneHalf()
    ensures s.requests[0].pc == Ready(Creates(None, Some(1)))
  {
    hide Reachable;
    s := HalfLocks();
    ReservedOfTwo(Halves(Draft, Some(0)), Halves(NotInvoiced, None), Some(1));
    RoundingAddsAThousandth();
    s := Steps(OneHalf(), s, Decide(0));
  }

  /** Two milestones of 50.0005% each pass the check, which rounds both down: the bound of a
      thousandth over 100 is reached. */
  lemma RoundingExceedsBudget() returns (s: State)
    ensures BooksOk(OneHalf()) && Reachable(OneHalf(), s)
    ensures Reserved(s.db.books.milestones, 0, None) == 100.001
  {
    OneHalfIsOk();
    hide Reachable;
    s := HalfPasses();
    s := Steps(OneHalf(), s, Commit(0));
    assert s.db.books.milestones == [Halves(Draft, Some(0)), Halves(Draft, Some(1))];
    ReservedOfTwo(Halves(Draft, Some(0)), Halves(Draft, Some(1)), None);
  }

  // ----- two bulk repairs from an old snapshot -----

  function Billed(status: BillingStatus, invoice: Option<InvoiceId>): Milestone {
    Milestone(0, true, FixedAmount, 0.0, status, invoice)
  }

  function Unbilled(): Books {
    Books([Billed(NotInvoiced, None)], [])
  }

  function OneDraft(): Books {
    Books([Billed(Draft, Some(0))], [Invoice(DraftDoc, None, Some(0))])
  }

  lemma OneFixedIsOk(status: BillingStatus, invoice: Option<InvoiceId>, invoices: seq<Invoice>)
    requires status == InvoiceState(invoices, invoice).0 && (invoice.Some? ==> invoice.value < |invoices|)
    requires forall i :: 0 <= i < |invoices| ==> invoices[i].amendedFrom.None?
    ensures BooksOk(Books([Billed(status, invoice)], invoices))
  {
    var b := Books([Billed(status, invoice)], invoices);
    forall p: ProjectId ensures InBudget(b.milestones, p) {
      assert b.milestones[..0] == [] && CutAll(b.milestones)[..0] == [];
    }
  }

  lemma GeneratesAfterTheSnapshot() returns (s: State)
    ensures Reachable(Unbilled(), s) && s.requests.Keys == {0, 1}
    ensures s.db == Database(Unbilled(), map[ProjectRow(0) := 1, MilestoneRow(0) := 1])
    ensures s.requests[0] == Request(RepairCall, Opened, Unbilled())
    ensures s.requests[1] == Request(GenerateCall(0), HasMilestone(0), Unbilled())
  {
    hide Reachable;
    StartIsReachable(Unbilled());
    s := Opens(Unbilled(), Start(Unbilled()), 0, RepairCall);
    s := Opens(Unbilled(), s, 1, GenerateCall(0));
    s := Steps(Unbilled(), s, LockProject(1));
    s := Steps(Unbilled(), s, LockMilestone(1));
  }

  lemma DraftCommits() returns (s: State)
    ensures Reachable(Unbilled(), s) && s.requests.Keys == {0, 1}
    ensures s.db == Database(OneDraft(), map[])
    ensures s.requests[0] == Request(RepairCall, Opened, Unbilled())
  {
    hide Reachable;
    s := GeneratesAfterTheSnapshot();
    s := Steps(Unbilled(), s, Decide(1));
    s := Steps(Unbilled(), s, Commit(1));
    assert s.db.books.milestones == [Billed(Draft, Some(0))];
  }

  lemma RepairLocksTheDraft() returns (s: State)
    ensures Reachable(Unbilled(), s) && 0 in s.requests
    ensures s.db.books == OneDraft()
    ensures s.requests[0].pc == Ready(Repairs([]))
  {
    hide Reachable;
    s := DraftCommits();
    s := Steps(Unbilled(), s, LockMilestone(0));
    s := Steps(Unbilled(), s, LockMilestone(0));
  }

  /** An invoice drafted after the snapshot loses its milestone to the bulk repair while it is
      live, and the milestone may be invoiced a second time. */
  lemma RepairDropsLiveDraft() returns (s: State)
    ensures BooksOk(Unbilled()) && Reachable(Unbilled(), s)
    ensures LiveInvoice(s.db.books.invoices, 0) && s.db.books.milestones == [Billed(NotInvoiced, None)]
    ensures Decision(s.db.books, GenerateCall(0), 0).Ready?
  {
    hide Reachable;
    OneFixedIsOk(NotInvoiced, None, []);
    var s1 := RepairLocksTheDraft();
    s := Steps(Unbilled(), s1, Commit(0));
    assert s.db.books.milestones == [Billed(NotInvoiced, None)];
  }

  lemma SubmitsAfterTheSnapshot() returns (s: State)
    ensures Reachable(OneDraft(), s) && s.requests.Keys == {0, 1}
    ensures s.db.books == OneDraft()
    ensures s.db.locks == map[InvoiceRow(0) := 1]
    ensures s.requests[0] == Request(RepairCall, Opened, s.db.books)
    ensures s.requests[1] == Request(DocCall(0, SubmittedDoc), Found(Some(0)), s.db.books)
  {
    hide Reachable;
    StartIsReachable(OneDraft());
    s := Opens(OneDraft(), Start(OneDraft()), 0, RepairCall);
    s := Opens(OneDraft(), s, 1, DocCall(0, SubmittedDoc));
    s := Steps(OneDraft(), s, LockInvoice(1));
    s := Steps(OneDraft(), s, Discover(1, Some(0)));
  }

  lemma SubmitDecides() returns (s: State)
    ensures Reachable(OneDraft(), s) && s.requests.Keys == {0, 1}
    ensures s.db.books == OneDraft()
    ensures s.db.locks == map[InvoiceRow(0) := 1, MilestoneRow(0) := 1]
    ensures s.requests[0] == Request(RepairCall, Opened, s.db.books)
    ensures s.requests[1].pc == Ready(Moves(0, SubmittedDoc, Some(0)))
  {
    hide Reachable;
    s := SubmitsAfterTheSnapshot();
    s := Steps(OneDraft(), s, LockMilestone(1));
    assert s.requests[1].pc == HasMilestone(0);
    s := Steps(OneDraft(), s, Decide(1));
  }

  lemma SubmitCommits() returns (s: State)
    ensures Reachable(OneDraft(), s) && s.requests.Keys == {0, 1}
    ensures s.db == Database(Books([Billed(Invoiced, Some(0))], [Invoice(SubmittedDoc, None, Some(0))]), map[])
    ensures s.requests[0] == Request(RepairCall, Opened, OneDraft())
  {
    hide Reachable;
    s := SubmitDecides();
    s := Steps(OneDraft(), s, Commit(1));
    assert s.db.books.milestones == [Billed(Invoiced, Some(0))];
  }

  lemma RepairLocksTheSubmitted() returns (s: State)
    ensures Reachable(OneDraft(), s) && 0 in s.requests
    ensures s.db.books == Books([Billed(Invoiced, Some(0))], [Invoice(SubmittedDoc, None, Some(0))])
    ensures s.requests[0].pc == Repairing(1) && s.requests[0].call == RepairCall
    ensures s.requests[0].snap == OneDraft()
  {
    hide Reachable;
    s := SubmitCommits();
    s := Steps(OneDraft(), s, LockMilestone(0));
  }

  /** A submit that commits after the snapshot is undone by the bulk repair: the invoice is
      submitted, and its milestone says Draft. */
  lemma RepairUndoesSubmit() returns (s: State)
    ensures BooksOk(OneDraft())
    ensures Reachable(OneDraft(), s)
    ensures s.db.books == Books([Billed(Draft, Some(0))], [Invoice(SubmittedDoc, None, Some(0))])
  {
    hide Reachable;
    OneFixedIsOk(Draft, Some(0), [Invoice(DraftDoc, None, Some(0))]);
    var s1 := RepairLocksTheSubmitted();
    s := Steps(OneDraft(), s1, LockMilestone(0));
    s := Steps(OneDraft(), s, Commit(0));
    assert s.db.books.milestones == [Billed(Draft, Some(0))];
  }

  // ----- a milestone on two live invoices -----

  function Cancelled(): Invoice {
    Invoice(CancelledDoc, None, Some(0))
  }

  function OnceBilled(): Books {
    Books([Billed(NotInvoiced, Some(0))], [Cancelled()])
  }

  lemma OnceBilledIsOk()
    ensures BooksOk(OnceBilled()) && Attributed(OnceBilled()) && Single(OnceBilled())
  {
    OneFixedIsOk(NotInvoiced, Some(0), [Cancelled()]);
  }

  lemma GeneratesAgain() returns (s: State)
    ensures Reachable(OnceBilled(), s) && s.requests.Keys == {0}
    ensures s.db == Database(OnceBilled(), map[ProjectRow(0) := 0, MilestoneRow(0) := 0])
    ensures s.requests[0] == Request(GenerateCall(0), HasMilestone(0), OnceBilled())
  {
    hide Reachable;
    StartIsReachable(OnceBilled());
    s := Opens(OnceBilled(), Start(OnceBilled()), 0, GenerateCall(0));
    s := Steps(OnceBilled(), s, LockProject(0));
    s := Steps(OnceBilled(), s, LockMilestone(0));
  }

  function Redrafted(): Books {
    Books([Billed(Draft, Some(1))], [Cancelled(), Invoice(DraftDoc, None, Some(0))])
  }

  lemma SecondDraft() returns (s: State)
    ensures Reachable(OnceBilled(), s) && s.requests.Keys == {0} && s.db == Database(Redrafted(), map[])
  {
    hide Reachable;
    s := GeneratesAgain();
    s := Steps(OnceBilled(), s, Decide(0));
    s := Steps(OnceBilled(), s, Commit(0));
    assert s.db.books.milestones == Redrafted().milestones;
  }

  function Doubled(): Books {
    Books([Billed(Draft, Some(1))], [Cancelled(), Invoice(DraftDoc, None, Some(0)), Invoice(DraftDoc, Some(0), Some(0))])
  }

  /** A cancelled invoice whose milestone has been invoiced anew is amended: the amendment finds
      no milestone, is saved all the same, and the milestone is on two live invoices. */
  lemma AmendedBesideNewDraft() returns (s: State)
    ensures BooksOk(OnceBilled()) && Attributed(OnceBilled()) && Single(OnceBilled()) && Reachable(OnceBilled(), s)
    ensures s.db == Database(Doubled(), map[]) && s.requests.Keys == {0, 1}
    ensures Bills(s.db.books, 1, 0) && Bills(s.db.books, 2, 0)
  {
    hide Reachable;
    OnceBilledIsOk();
    s := SecondDraft();
    s := Opens(OnceBilled(), s, 1, AmendCall(0));
    s := Steps(OnceBilled(), s, Discover(1, None));
    s := Steps(OnceBilled(), s, Commit(1));
  }

  lemma DraftIsTrashed() returns (s: State)
    ensures Reachable(OnceBilled(), s) && s.requests.Keys == {0, 1, 2} && s.db.books == Doubled()
    ensures s.db.locks == map[InvoiceRow(1) := 2]
    ensures s.requests[2] == Request(DocCall(1, DeletedDoc), HasInvoice, Doubled())
  {
    hide Reachable;
    s := AmendedBesideNewDraft();
    s := Opens(OnceBilled(), s, 2, DocCall(1, DeletedDoc));
    s := Steps(OnceBilled(), s, LockInvoice(2));
  }

  lemma TrashDecides() returns (s: State)
    ensures Reachable(OnceBilled(), s) && s.requests.Keys == {0, 1, 2} && s.db.books == Doubled()
    ensures s.requests[2].pc == Ready(Moves(1, DeletedDoc, Some(0)))
  {
    hide Reachable;
    s := DraftIsTrashed();
    s := Steps(OnceBilled(), s, Discover(2, Some(0)));
    assert s.requests[2].pc == Found(Some(0));
    s := Steps(OnceBilled(), s, LockMilestone(2));
    assert s.requests[2].pc == HasMilestone(0);
    s := Steps(OnceBilled(), s, Decide(2));
  }

  /** Once that draft is trashed, the check before a deletion passes, and so does that before
      a further invoice, while the amendment still bills the milestone. */
  lemma DeletableWhileBilled() returns (s: State)
    ensures Reachable(OnceBilled(), s)
    ensures s.db.books.milestones == [Billed(NotInvoiced, None)] && !Active(s.db.books.milestones[0])
    ensures Bills(s.db.books, 2, 0) && Decision(s.db.books, GenerateCall(0), 0).Ready?
  {
    hide Reachable;
    s := TrashDecides();
    s := Steps(OnceBilled(), s, Commit(2));
    assert s.db.books.milestones == [Billed(NotInvoiced, None)];
  }

  // ----- an edit between the snapshot of a bulk repair and its commit -----

  function Percent(percent: real, status: BillingStatus, invoice: InvoiceId): Milestone {
    Milestone(0, true, PercentOfBudget, percent, status, Some(invoice))
  }

  function Submitted(m: MilestoneId): Invoice {
    Invoice(SubmittedDoc, None, Some(m))
  }

  function FullBudget(): Books {
    Books([Percent(60.0, Invoiced, 0), Percent(40.0, Invoiced, 1)], [Submitted(0), Submitted(1)])
  }

  lemma FullBudgetIsOk()
    ensures BooksOk(FullBudget())
  {
    var ms := FullBudget().milestones;
    assert Cut3(60.0) == 60.0 && Cut3(40.0) == 40.0;
    assert CutAll(ms) == ms;
    forall p: ProjectId ensures InBudget(ms, p) {
      assert ms[..1][..0] == [];
      assert Reserved(ms[..1], p, None) == Share(ms[0], p);
    }
  }

  lemma CancelDiscovers() returns (s: State)
    ensures Reachable(FullBudget(), s) && s.requests.Keys == {0, 1} && s.db == Database(FullBudget(), map[InvoiceRow(0) := 1])
    ensures s.requests[0] == Request(RepairCall, Opened, FullBudget())
    ensures s.requests[1] == Request(DocCall(0, CancelledDoc), Found(Some(0)), FullBudget())
  {
    hide Reachable;
    StartIsReachable(FullBudget());
    s := Opens(FullBudget(), Start(FullBudget()), 0, RepairCall);
    s := Opens(FullBudget(), s, 1, DocCall(0, CancelledDoc));
    s := Steps(FullBudget(), s, LockInvoice(1));
    assert s.requests[1].pc == HasInvoice;
    s := Steps(FullBudget(), s, Discover(1, Some(0)));
  }

  lemma CancelDecides() returns (s: State)
    ensures Reachable(FullBudget(), s) && s.requests.Keys == {0, 1} && s.db.books == FullBudget()
    ensures s.db.locks == map[InvoiceRow(0) := 1, MilestoneRow(0) := 1]
    ensures s.requests[0] == Request(RepairCall, Opened, FullBudget())
    ensures s.requests[1].pc == Ready(Moves(0, CancelledDoc, Some(0)))
  {
    hide Reachable;
    s := CancelDiscovers();
    s := Steps(FullBudget(), s, LockMilestone(1));
    assert s.requests[1].pc == HasMilestone(0);
    s := Steps(FullBudget(), s, Decide(1));
  }

  function Reopened(percent: real): Books {
    Books([Percent(percent, NotInvoiced, 0), Percent(40.0, Invoiced, 1)], [Invoice(CancelledDoc, None, Some(0)), Submitted(1)])
  }

  lemma CancelCommits() returns (s: State)
    ensures Reachable(FullBudget(), s) && s.requests.Keys == {0, 1} && s.db == Database(Reopened(60.0), map[])
    ensures s.requests[0] == Request(RepairCall, Opened, FullBudget())
  {
    hide Reachable;
    s := CancelDecides();
    s := Steps(FullBudget(), s, Commit(1));
    assert s.db.books.milestones == Reopened(60.0).milestones && s.db.books.invoices == Reopened(60.0).invoices;
  }

  lemma EditDecides() returns (s: State)
    ensures Reachable(FullBudget(), s) && s.requests.Keys == {0, 1, 2}
    ensures s.db == Database(Reopened(60.0), map[MilestoneRow(0) := 2])
    ensures s.requests[0] == Request(RepairCall, Opened, FullBudget())
    ensures s.requests[2].pc == Ready(Rewrites(0, Percent(100.0, NotInvoiced, 0)))
  {
    hide Reachable;
    s := CancelCommits();
    s := Opens(FullBudget(), s, 2, EditCall(0, Percent(100.0, NotInvoiced, 0)));
    s := Steps(FullBudget(), s, LockMilestone(2));
    assert s.requests[2].pc == HasMilestone(0);
    s := Steps(FullBudget(), s, Decide(2));
  }

  lemma EditCommits() returns (s: State)
    ensures Reachable(FullBudget(), s) && s.requests.Keys == {0, 1, 2} && s.db == Database(Reopened(100.0), map[])
    ensures s.requests[0] == Request(RepairCall, Opened, FullBudget())
  {
    hide Reachable;
    s := EditDecides();
    s := Steps(FullBudget(), s, Commit(2));
    assert s.db.books.milestones == Reopened(100.0).milestones;
  }

  lemma RepairLocksBoth() returns (s: State)
    ensures Reachable(FullBudget(), s) && 0 in s.requests && s.db.books == Reopened(100.0)
    ensures s.requests[0] == Request(RepairCall, Repairing(2), FullBudget())
  {
    hide Reachable;
    s := EditCommits();
    s := Steps(FullBudget(), s, LockMilestone(0));
    assert s.requests[0].pc == Repairing(1);
    s := Steps(FullBudget(), s, LockMilestone(0));
  }

  /** The first of two live milestones, 60% and 40%, is cancelled and raised to 100% after the
      snapshot of the bulk repair, which then declares it invoiced again: 140% are reserved. */
  lemma RepairExceedsBudget() returns (s: State)
    ensures BooksOk(FullBudget()) && Reachable(FullBudget(), s)
    ensures s.db.books.milestones == [Percent(100.0, Invoiced, 0), Percent(40.0, Invoiced, 1)]
    ensures Reserved(s.db.books.milestones, 0, None) == 140.0
  {
    hide Reachable;
    FullBudgetIsOk();
    s := RepairLocksBoth();
    s := Steps(FullBudget(), s, LockMilestone(0));
    assert s.requests[0].pc == Ready(Repairs(FullBudget().invoices));
    s := Steps(FullBudget(), s, Commit(0));
    assert s.db.books.milestones == [Percent(100.0, Invoiced, 0), Percent(40.0, Invoiced, 1)];
    ReservedOfTwo(Percent(100.0, Invoiced, 0), Percent(40.0, Invoiced, 1), None);
  }

  // ----- an amendment and a repair of one milestone -----

  lemma AmendmentLocks() returns (s: State)
    ensures Reachable(OnceBilled(), s) && s.requests.Keys == {0} && s.db.books == OnceBilled()
    ensures s.requests[0] == Request(AmendCall(0), HasMilestone(0), OnceBilled())
  {
    hide Reachable;
    StartIsReachable(OnceBilled());
    s := Opens(OnceBilled(), Start(OnceBilled()), 0, AmendCall(0));
    s := Steps(OnceBilled(), s, Discover(0, Some(0)));
    assert s.requests[0].pc == Found(Some(0));
    s := Steps(OnceBilled(), s, LockProject(0));
    assert s.requests[0].pc == HasProject(0, 0);
    s := Steps(OnceBilled(), s, LockMilestone(0));
  }

  /** The amendment of a cancelled invoice takes over the milestone that points at it. */
  lemma AmendmentTakesOver() returns (s: State)
    ensures BooksOk(OnceBilled()) && Reachable(OnceBilled(), s)
    ensures s.db.books == Books([Billed(Draft, Some(1))], [Cancelled(), Invoice(DraftDoc, Some(0), Some(0))])
  {
    OnceBilledIsOk();
    hide Reachable;
    s := AmendmentLocks();
    s := Steps(OnceBilled(), s, Decide(0));
    assert s.requests[0].pc == Ready(Creates(Some(0), Some(0)));
    s := Steps(OnceBilled(), s, Commit(0));
    assert s.db.books.milestones == [Billed(Draft, Some(1))];
  }

  function StaleDraft(): Books {
    Books([Billed(Draft, Some(0))], [Cancelled()])
  }

  lemma ReconcileLocks() returns (s: State)
    ensures Reachable(StaleDraft(), s) && s.requests.Keys == {0} && s.db.books == StaleDraft()
    ensures s.requests[0] == Request(ReconcileCall(0), HasMilestone(0), StaleDraft())
  {
    StartIsReachable(StaleDraft());
    hide Reachable;
    s := Opens(StaleDraft(), Start(StaleDraft()), 0, ReconcileCall(0));
    s := Steps(StaleDraft(), s, LockMilestone(0));
  }

  /** A stored status that is not the derived one is repaired. */
  lemma ReconcileRepairs() returns (s: State)
    ensures Reachable(StaleDraft(), s) && s.db.books == Books([Billed(NotInvoiced, Some(0))], [Cancelled()])
  {
    hide Reachable;
    s := ReconcileLocks();
    s := Steps(StaleDraft(), s, Decide(0));
    assert s.requests[0].pc == Ready(Rewrites(0, Billed(NotInvoiced, Some(0))));
    s := Steps(StaleDraft(), s, Commit(0));
    assert s.db.books.milestones == [Billed(NotInvoiced, Some(0))];
  }
}
