/** Which invoices bill a milestone, whether or not it points at them: an amendment that finds
    no milestone at its predecessor still carries the lines of the milestone it came from. */
module MilestoneClaims {
  import opened Basics
  import opened MilestoneBilling
  import opened MilestoneProtocol

  /** A draft or submitted invoice carries the lines of milestone `m`. */
  predicate Bills(b: Books, i: InvoiceId, m: MilestoneId) {
    LiveInvoice(b.invoices, i) && b.invoices[i].bills == Some(m)
  }

  ghost predicate Single(b: Books) {
    forall i: InvoiceId, j: InvoiceId, m: MilestoneId :: Bills(b, i, m) && Bills(b, j, m) ==> i == j
  }

  // ----- the milestone of every invoice -----

  /** An amendment bills what its predecessor billed. */
  predicate Inherits(invoices: seq<Invoice>, i: InvoiceId)
    requires i < |invoices|
  {
    invoices[i].amendedFrom.Some? ==>
      && invoices[i].amendedFrom.value < |invoices|
      && invoices[i].bills == invoices[invoices[i].amendedFrom.value].bills
  }

  /** A milestone points at an invoice that bills it. */
  predicate PointsAtItsOwn(b: Books, m: MilestoneId)
    requires m < |b.milestones|
  {
    var i := b.milestones[m].invoice;
    i.Some? ==> i.value < |b.invoices| && b.invoices[i.value].bills == Some(m)
  }

  /** A live invoice that amends nothing is the one its milestone points at. */
  predicate OriginalIsClaimed(b: Books, i: InvoiceId) {
    LiveInvoice(b.invoices, i) && b.invoices[i].amendedFrom.None? && b.invoices[i].bills.Some? ==>
      PointsAt(b, b.invoices[i].bills.value, i)
  }

  ghost predicate Attributed(b: Books) {
    && (forall i :: 0 <= i < |b.invoices| ==> Inherits(b.invoices, i))
    && (forall m :: 0 <= m < |b.milestones| ==> PointsAtItsOwn(b, m))
    && (forall i :: 0 <= i < |b.invoices| ==> OriginalIsClaimed(b, i))
  }

  /** A milestone on sound books points at a live invoice exactly when it is active. */
  lemma ActiveMeansLive(b: Books, m: MilestoneId)
    requires BooksOk(b) && m < |b.milestones|
    ensures Active(b.milestones[m]) <==> b.milestones[m].invoice.Some? && LiveInvoice(b.invoices, b.milestones[m].invoice.value)
  {
    assert Projects(b, m) && PointerOk(b, m);
  }

  lemma CreateAttributes(db: Database, w: WorkerId, from: Option<InvoiceId>, claim: Option<MilestoneId>)
    requires BooksOk(db.books) && Attributed(db.books) && EffectOk(db, w, Creates(from, claim))
    ensures Attributed(Insert(db.books, from, claim))
  {
    var b, c := db.books, Insert(db.books, from, claim);
    forall m | 0 <= m < |c.milestones| ensures PointsAtItsOwn(c, m) {
      assert PointsAtItsOwn(b, m);
    }
    forall i | 0 <= i < |c.invoices| ensures Inherits(c.invoices, i) && OriginalIsClaimed(c, i) {
      if i < |b.invoices| {
        assert Inherits(b.invoices, i) && OriginalIsClaimed(b, i);
        if claim.Some? {
          ActiveMeansLive(b, claim.value);
        }
      }
    }
  }

  lemma MoveAttributes(db: Database, w: WorkerId, i: InvoiceId, to: DocStatus, claim: Option<MilestoneId>)
    requires BooksOk(db.books) && Attributed(db.books) && EffectOk(db, w, Moves(i, to, claim))
    ensures Attributed(Transition(db.books, i, to, claim))
  {
    var b, c := db.books, Transition(db.books, i, to, claim);
    assert Inherits(b.invoices, i);
    forall m | 0 <= m < |c.milestones| ensures PointsAtItsOwn(c, m) {
      assert PointsAtItsOwn(b, m);
    }
    forall k | 0 <= k < |c.invoices| ensures Inherits(c.invoices, k) && OriginalIsClaimed(c, k) {
      assert Inherits(b.invoices, k) && OriginalIsClaimed(b, k);
    }
  }

  lemma RewriteAttributes(db: Database, w: WorkerId, m: MilestoneId, row: Milestone)
    requires BooksOk(db.books) && Attributed(db.books) && EffectOk(db, w, Rewrites(m, row))
    ensures Attributed(Write(db.books, Rewrites(m, row)))
  {
    var b, c := db.books, Write(db.books, Rewrites(m, row));
    ActiveMeansLive(b, m);
    forall k | 0 <= k < |c.milestones| ensures PointsAtItsOwn(c, k) {
      assert PointsAtItsOwn(b, k);
    }
    forall i | 0 <= i < |c.invoices| ensures Inherits(c.invoices, i) && OriginalIsClaimed(c, i) {
      assert Inherits(b.invoices, i) && OriginalIsClaimed(b, i);
    }
  }

  lemma RepairAttributes(b: Books, seen: seq<Invoice>)
    requires BooksOk(b) && Attributed(b) && UpToDate(b, seen)
    ensures Attributed(Repaired(b, seen))
  {
    var c := Repaired(b, seen);
    forall k | 0 <= k < |c.milestones| ensures PointsAtItsOwn(c, k) {
      assert PointsAtItsOwn(b, k);
      RepairedRowKeeps(b, seen, k);
    }
    forall i | 0 <= i < |c.invoices| ensures Inherits(c.invoices, i) && OriginalIsClaimed(c, i) {
      assert Inherits(b.invoices, i) && OriginalIsClaimed(b, i);
      if b.invoices[i].bills.Some? && PointsAt(b, b.invoices[i].bills.value, i) {
        ActiveMeansLive(b, b.invoices[i].bills.value);
        RepairedRowKeeps(b, seen, b.invoices[i].bills.value);
      }
    }
  }

  lemma WriteAttributes(db: Database, w: WorkerId, e: Effect)
    requires BooksOk(db.books) && Attributed(db.books) && EffectOk(db, w, e) && Sane(db.books, e)
    ensures Attributed(Write(db.books, e))
  {
    match e
    case Creates(from, claim) => CreateAttributes(db, w, from, claim);
    case Moves(i, to, claim) => MoveAttributes(db, w, i, to, claim);
    case Rewrites(m, row) => RewriteAttributes(db, w, m, row);
    case Repairs(seen) => RepairAttributes(db.books, seen);
  }

  // ----- one step -----

  /** The step commits what its request has prepared. */
  predicate Commits(s: State, a: Action) {
    a.Commit? && a.w in s.requests && s.requests[a.w].pc.Ready?
  }

  lemma BooksAfter(s: State, a: Action)
    requires Inv(s)
    ensures Commits(s, a) ==> EffectOk(s.db, a.w, s.requests[a.w].pc.effect)
    ensures Apply(s, a).db.books == if Commits(s, a) then Write(s.db.books, s.requests[a.w].pc.effect) else s.db.books
  {
    if a.w in s.requests {
      assert RequestOk(s.db, a.w, s.requests[a.w]);
    }
  }

  lemma {:induction false} AttributedAlways(start: Books, schedule: seq<Action>)
    requires BooksOk(start) && Attributed(start) && Clean(start, schedule)
    ensures Attributed(Execute(start, schedule).db.books)
  {
    if schedule != [] {
      var n := |schedule| - 1;
      AttributedAlways(start, schedule[..n]);
      InvAlways(start, schedule[..n]);
      var s := Execute(start, schedule[..n]);
      BooksAfter(s, schedule[n]);
      if Commits(s, schedule[n]) {
        WriteAttributes(s.db, schedule[n].w, s.requests[schedule[n].w].pc.effect);
      }
    }
  }

  // ----- a milestone on two live invoices -----

  /** Some live amendment carries the lines of `m`. */
  ghost predicate AmendmentBills(b: Books, m: MilestoneId) {
    exists i: InvoiceId :: Bills(b, i, m) && b.invoices[i].amendedFrom.Some?
  }

  /** Some live invoice carries the lines of `m`. */
  ghost predicate SomeInvoiceBills(b: Books, m: MilestoneId) {
    exists i: InvoiceId :: Bills(b, i, m)
  }

  /** The effect drafts an invoice for a milestone beside a live amendment of an earlier one, or
      amends an invoice whose milestone is on another live invoice. */
  ghost predicate DraftsAgain(b: Books, e: Effect) {
    e.Creates? && match e.amendedFrom
      case None => e.claim.Some? && AmendmentBills(b, e.claim.value)
      case Some(f) => f < |b.invoices| && b.invoices[f].bills.Some? && SomeInvoiceBills(b, b.invoices[f].bills.value)
  }

  ghost predicate BillsAgain(s: State, a: Action) {
    Commits(s, a) && DraftsAgain(s.db.books, s.requests[a.w].pc.effect)
  }

  /** The generator's own check shuts out every live invoice but the amendments. */
  lemma OnlyAmendmentsAreMissed(b: Books, m: MilestoneId, i: InvoiceId)
    requires BooksOk(b) && Attributed(b) && m < |b.milestones| && !Active(b.milestones[m]) && Bills(b, i, m)
    ensures b.invoices[i].amendedFrom.Some? && !PointsAt(b, m, i)
  {
    ActiveMeansLive(b, m);
    assert OriginalIsClaimed(b, i);
  }

  /** A draft that bills a milestone anew makes it the second exactly when another is live. */
  lemma CreateKeepsSingle(db: Database, w: WorkerId, from: Option<InvoiceId>, claim: Option<MilestoneId>)
    requires BooksOk(db.books) && Attributed(db.books) && Single(db.books) && EffectOk(db, w, Creates(from, claim))
    ensures Single(Insert(db.books, from, claim)) <==> !DraftsAgain(db.books, Creates(from, claim))
  {
    var b, c := db.books, Insert(db.books, from, claim);
    var n, subject := |b.invoices|, Subject(b, from, claim);
    assert forall i: InvoiceId, m: MilestoneId :: i < n ==> (Bills(b, i, m) <==> Bills(c, i, m));
    assert subject.Some? ==> Bills(c, n, subject.value);
    if subject.Some? && SomeInvoiceBills(b, subject.value) {
      var i :| Bills(b, i, subject.value);
      assert Bills(c, i, subject.value) && i != n;
      if from.None? {
        OnlyAmendmentsAreMissed(b, subject.value, i);
      }
    } else {
      forall i: InvoiceId, j: InvoiceId, m: MilestoneId | Bills(c, i, m) && Bills(c, j, m) ensures i == j {
        assert i < n ==> Bills(b, i, m);
        assert j < n ==> Bills(b, j, m);
      }
    }
  }

  lemma OthersKeepSingle(b: Books, e: Effect)
    requires Single(b) && EffectFits(b, e) && !e.Creates?
    requires e.Moves? ==> Legal(b.invoices[e.i].docstatus, e.to)
    ensures Single(Write(b, e))
  {
    var c := Write(b, e);
    forall i: InvoiceId, j: InvoiceId, m: MilestoneId | Bills(c, i, m) && Bills(c, j, m) ensures i == j {
      assert Bills(b, i, m) && Bills(b, j, m);
    }
  }

  lemma SingleStep(s: State, a: Action)
    requires Inv(s) && Attributed(s.db.books) && Single(s.db.books)
    ensures Single(Apply(s, a).db.books) <==> !BillsAgain(s, a)
  {
    BooksAfter(s, a);
    if Commits(s, a) {
      var e := s.requests[a.w].pc.effect;
      if e.Creates? {
        CreateKeepsSingle(s.db, a.w, e.amendedFrom, e.claim);
      } else {
        OthersKeepSingle(s.db.books, e);
      }
    }
  }

  ghost predicate AlwaysSingle(start: Books, schedule: seq<Action>) {
    forall n :: 0 <= n <= |schedule| ==> Single(Execute(start, schedule[..n]).db.books)
  }

  ghost predicate NeverBillsAgain(start: Books, schedule: seq<Action>) {
    forall n :: 0 <= n < |schedule| ==> !BillsAgain(Execute(start, schedule[..n]), schedule[n])
  }

  lemma CleanPrefix(start: Books, schedule: seq<Action>, n: nat)
    requires Clean(start, schedule) && n <= |schedule|
    ensures Clean(start, schedule[..n])
  {
    if n == |schedule| {
      assert schedule[..n] == schedule;
    } else {
      CleanFront(start, schedule, n);
    }
  }

  lemma SingleOneMore(start: Books, schedule: seq<Action>, n: nat)
    requires BooksOk(start) && Attributed(start) && Clean(start, schedule) && n < |schedule|
    requires Single(Execute(start, schedule[..n]).db.books)
    ensures Single(Execute(start, schedule[..n + 1]).db.books) <==> !BillsAgain(Execute(start, schedule[..n]), schedule[n])
  {
    CleanPrefix(start, schedule, n);
    InvAlways(start, schedule[..n]);
    AttributedAlways(start, schedule[..n]);
    StepOf(start, schedule, n);
    SingleStep(Execute(start, schedule[..n]), schedule[n]);
  }

  lemma {:induction false} SingleUpTo(start: Books, schedule: seq<Action>, n: nat)
    requires BooksOk(start) && Attributed(start) && Single(start) && Clean(start, schedule) && n <= |schedule|
    requires NeverBillsAgain(start, schedule)
    ensures Single(Execute(start, schedule[..n]).db.books)
  {
    if n > 0 {
      SingleUpTo(start, schedule, n - 1);
      SingleOneMore(start, schedule, n - 1);
    }
  }

  /** Along a run without a stale bulk repair every milestone stays on at most one live invoice
      exactly when none is drafted beside a live amendment of an earlier one, and none is
      amended while its milestone is on another live one. */
  lemma BilledOnceIff(start: Books, schedule: seq<Action>)
    requires BooksOk(start) && Attributed(start) && Single(start) && Clean(start, schedule)
    ensures AlwaysSingle(start, schedule) <==> NeverBillsAgain(start, schedule)
  {
    if NeverBillsAgain(start, schedule) {
      forall n | 0 <= n <= |schedule| ensures Single(Execute(start, schedule[..n]).db.books) {
        SingleUpTo(start, schedule, n);
      }
    } else {
      var n :| 0 <= n < |schedule| && BillsAgain(Execute(start, schedule[..n]), schedule[n]);
      if Single(Execute(start, schedule[..n]).db.books) {
        SingleOneMore(start, schedule, n);
      }
      assert !Single(Execute(start, schedule[..n]).db.books) || !Single(Execute(start, schedule[..n + 1]).db.books);
    }
  }

  // ----- runs without amendments -----

  predicate Unamended(invoices: seq<Invoice>) {
    forall i :: 0 <= i < |invoices| ==> invoices[i].amendedFrom.None?
  }

  predicate AmendsNothing(x: Request) {
    !x.call.AmendCall? && (x.pc.Ready? && x.pc.effect.Creates? ==> x.pc.effect.amendedFrom.None?)
  }

  lemma MoveAmendsNothing(db: Database, x: Request, a: Action)
    requires Unamended(db.books.invoices) && AmendsNothing(x)
    ensures Unamended(Move(db, x, a).0.books.invoices) && AmendsNothing(Move(db, x, a).1)
  {
  }

  lemma {:induction false} StaysUnamended(start: Books, schedule: seq<Action>)
    requires Unamended(start.invoices) && forall a :: a in schedule && a.Open? ==> !a.call.AmendCall?
    ensures var s := Execute(start, schedule);
      Unamended(s.db.books.invoices) && forall w :: w in s.requests ==> AmendsNothing(s.requests[w])
  {
    if schedule != [] {
      var s, a := Execute(start, schedule[..|schedule| - 1]), schedule[|schedule| - 1];
      assert a in schedule;
      StaysUnamended(start, schedule[..|schedule| - 1]);
      if a.w in s.requests {
        MoveAmendsNothing(s.db, s.requests[a.w], a);
      }
    }
  }

  /** So as long as no invoice is amended, concurrent generators, submits, cancels and trashes
      never put a milestone on two live invoices. */
  lemma BilledOnceWithoutAmendments(start: Books, schedule: seq<Action>)
    requires BooksOk(start) && Attributed(start) && Single(start) && Clean(start, schedule)
    requires Unamended(start.invoices) && forall a :: a in schedule && a.Open? ==> !a.call.AmendCall?
    ensures AlwaysSingle(start, schedule)
  {
    forall n | 0 <= n < |schedule| ensures !BillsAgain(Execute(start, schedule[..n]), schedule[n]) {
      StaysUnamended(start, schedule[..n]);
    }
    BilledOnceIff(start, schedule);
  }

  // ----- deletion -----

  /** Some live amendment carries the lines of `m`, and `m` does not point at it. */
  ghost predicate StrayAmendmentBills(b: Books, m: MilestoneId) {
    exists i: InvoiceId :: Bills(b, i, m) && b.invoices[i].amendedFrom.Some? && !PointsAt(b, m, i)
  }

  /** The check before a deletion and what it misses: no live invoice bills the milestone exactly
      when the check passes and no live amendment bills it that it does not point at. */
  lemma DeletionLeavesNoneIff(start: Books, schedule: seq<Action>, m: MilestoneId)
    requires BooksOk(start) && Attributed(start) && Clean(start, schedule)
    requires m < |Execute(start, schedule).db.books.milestones|
    ensures var b := Execute(start, schedule).db.books;
      !SomeInvoiceBills(b, m) <==>
        !Active(b.milestones[m]) && !StrayAmendmentBills(b, m)
  {
    InvAlways(start, schedule);
    AttributedAlways(start, schedule);
    var b := Execute(start, schedule).db.books;
    ActiveMeansLive(b, m);
    assert PointsAtItsOwn(b, m);
    if Active(b.milestones[m]) {
      assert Bills(b, b.milestones[m].invoice.value, m);
    } else if SomeInvoiceBills(b, m) {
      var i :| Bills(b, i, m);
      OnlyAmendmentsAreMissed(b, m, i);
    }
  }
}
