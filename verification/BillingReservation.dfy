/** Reservation of Timesheet Detail rows by Sales Invoices: the guard that a transaction runs
    on the details it bills, and the invariant that no BatchProjects-owned detail is on two
    live invoices, or twice on one. */
module BillingReservation {
  import opened Basics
  import opened Names

  type DetailId = nat
  type InvoiceId = nat
  type ProjectId = nat

  datatype DocStatus = DraftDoc | SubmittedDoc | CancelledDoc | DeletedDoc

  /** `invoice` is the billed stamp ERPNext writes when an invoice is submitted. */
  datatype Detail = Detail(
    docstatus: nat, billable: bool, task: bool, project: Option<ProjectId>, invoice: Option<InvoiceId>)

  datatype Invoice = Invoice(docstatus: DocStatus, lines: seq<DetailId>)

  /** Invoices are numbered in the order of their creation. */
  datatype Sources = Sources(details: map<DetailId, Detail>, invoices: seq<Invoice>)

  datatype Refusal = Duplicate | Missing | NotInvoiceable | AlreadyBilled | AlreadyClaimed | Contended

  /** Owned by BatchProjects: it carries a task, or its project is linked from a BP Project. */
  predicate Owned(d: Detail, projects: set<ProjectId>) {
    d.task || (d.project.Some? && d.project.value in projects)
  }

  predicate Invoiceable(d: Detail) {
    d.docstatus == 1 && d.billable
  }

  predicate Live(i: Invoice) {
    i.docstatus == DraftDoc || i.docstatus == SubmittedDoc
  }

  /** A live invoice other than `current` has `d` on it. */
  predicate ClaimedElsewhere(s: Sources, d: DetailId, current: Option<InvoiceId>) {
    exists i :: 0 <= i < |s.invoices| && Live(s.invoices[i]) && current != Some(i) && d in s.invoices[i].lines
  }

  predicate BilledElsewhere(d: Detail, current: Option<InvoiceId>) {
    d.invoice.Some? && d.invoice != current
  }

  /** The hours of `d` are no longer submitted, or not billable. */
  predicate Unusable(s: Sources, d: DetailId) {
    d in s.details && (s.details[d].docstatus != 1 || !s.details[d].billable)
  }

  /** `d` carries the billed stamp of an invoice other than `current`. */
  predicate Stamped(s: Sources, d: DetailId, current: Option<InvoiceId>) {
    d in s.details && s.details[d].invoice != None && s.details[d].invoice != current
  }

  predicate OnLiveInvoice(s: Sources, d: DetailId, i: InvoiceId, current: Option<InvoiceId>) {
    && i < |s.invoices| && current != Some(i) && d in s.invoices[i].lines
    && (s.invoices[i].docstatus == DraftDoc || s.invoices[i].docstatus == SubmittedDoc)
  }

  predicate Once(lines: seq<DetailId>, d: DetailId) {
    forall j, k :: 0 <= j < k < |lines| && lines[j] == d ==> lines[k] != d
  }

  // ----- the guard -----

  class BillingTables {
    var sources: Sources
    var projects: set<ProjectId>

    /** The given names, without the blank ones, each as often as it was given. */
    method CleanDetailNames(raw: seq<Option<DetailId>>) returns (cleaned: seq<DetailId>)
      ensures forall d :: multiset(cleaned)[d] == multiset(raw)[Some(d)]
    {
      cleaned := [];
      for i := 0 to |raw|
        invariant forall d :: multiset(cleaned)[d] == multiset(raw[..i])[Some(d)]
      {
        assert raw[..i + 1] == raw[..i] + [raw[i]];
        if raw[i].Some? {
          cleaned := cleaned + [raw[i].value];
        }
      }
      assert raw[..|raw|] == raw;
    }

    /** The owned ones among the details that exist in `scope`. */
    method BpLinkedSourceNames(scope: map<DetailId, Detail>, names: seq<DetailId>) returns (linked: set<DetailId>)
      ensures forall d :: d in linked <==>
        d in names && d in scope && (scope[d].task || (scope[d].project.Some? && scope[d].project.value in projects))
    {
      linked := set d | d in names && d in scope && scope[d].task;
      var unresolved := set d | d in names && d in scope && d !in linked && scope[d].project.Some? :: scope[d].project.value;
      assert forall d :: d in names && d in scope && d !in linked && scope[d].project.Some? ==>
        scope[d].project.value in unresolved;
      if unresolved != {} {
        var found := unresolved * projects;
        linked := linked + set d | d in names && d in scope && scope[d].project.Some? && scope[d].project.value in found;
      }
    }

    /** The first locked source, in name order, that stopped being invoiceable. */
    method ValidateLockedSourceState(names: seq<DetailId>) returns (ok: bool)
      requires forall d :: d in names ==> d in sources.details
      ensures ok <==> forall d :: d in names ==> sources.details[d].docstatus == 1 && sources.details[d].billable
    {
      var invalid: seq<DetailId> := [];
      for k := 0 to |names|
        invariant invalid == [] <==> forall d :: d in names[..k] ==> Invoiceable(sources.details[d])
      {
        assert names[..k + 1] == names[..k] + [names[k]];
        var row := sources.details[names[k]];
        if row.docstatus != 1 {
          invalid := invalid + [names[k]];
        } else if !row.billable {
          invalid := invalid + [names[k]];
        }
      }
      assert names[..|names|] == names;
      ok := invalid == [];
    }

    /** Every locked source is unbilled, or billed by the current invoice itself. */
    method ValidateUnbilled(names: seq<DetailId>, current: Option<InvoiceId>) returns (ok: bool)
      requires forall d :: d in names ==> d in sources.details
      ensures ok <==> forall d :: d in names ==> sources.details[d].invoice == None || sources.details[d].invoice == current
    {
      var billed: seq<DetailId> := [];
      for k := 0 to |names|
        invariant billed == [] <==> forall d :: d in names[..k] ==> !BilledElsewhere(sources.details[d], current)
      {
        assert names[..k + 1] == names[..k] + [names[k]];
        var stamp := sources.details[names[k]].invoice;
        if stamp.Some? && stamp != current {
          billed := billed + [names[k]];
        }
      }
      assert names[..|names|] == names;
      ok := billed == [];
    }

    /** The checks under the row locks: success exactly when every source is there, still
        invoiceable, and neither billed nor claimed by another live invoice, and the claim rows
        can be read without waiting; `contended` says that another transaction holds one. */
    method CheckLocked(names: seq<DetailId>, current: Option<InvoiceId>, contended: bool)
      returns (refusal: Option<Refusal>)
      ensures refusal == None <==>
        (forall d :: d in names ==> SourceOk(sources, d, current)) && !(contended && names != [])
      ensures refusal == Some(Contended) ==> contended && names != []
      ensures refusal == Some(Missing) <==> exists d :: d in names && d !in sources.details
      ensures refusal == Some(NotInvoiceable) ==> exists d :: d in names && Unusable(sources, d)
      ensures refusal == Some(AlreadyBilled) ==> exists d :: d in names && Stamped(sources, d, current)
      ensures refusal == Some(AlreadyClaimed) ==> exists d, i :: d in names && OnLiveInvoice(sources, d, i, current)
      ensures refusal != Some(Duplicate)
    {
      if exists d :: d in names && d !in sources.details {
        return Some(Missing);
      }
      var valid := ValidateLockedSourceState(names);
      if !valid {
        return Some(NotInvoiceable);
      }
      var unbilled := ValidateUnbilled(names, current);
      if !unbilled {
        return Some(AlreadyBilled);
      }
      if contended && names != [] {
        return Some(Contended);
      }
      NoClaims(sources, names, current);
      if LiveClaims(sources, names, current) != {} {
        var claim :| claim in LiveClaims(sources, names, current);
        assert claim.0 in names && OnLiveInvoice(sources, claim.0, claim.1, current);
        return Some(AlreadyClaimed);
      }
      return None;
    }

    /** The guarded names in lock order, unless one of them was given twice. */
    method GuardedNames(raw: seq<Option<DetailId>>, every: bool, scope: map<DetailId, Detail>)
      returns (r: Result<seq<DetailId>, Refusal>)
      ensures r.Ok? ==> Ascending(r.value) && forall d :: d in r.value <==> Guarded(projects, raw, every, scope, d)
      ensures r.Raised? <==> exists d :: Guarded(projects, raw, every, scope, d) && multiset(raw)[Some(d)] > 1
      ensures r.Raised? ==> r.error == Duplicate
    {
      var cleaned := CleanDetailNames(raw);
      CleanedIsRaw(raw, cleaned);
      var names := SortedNames(cleaned);
      var linked: set<DetailId>;
      if every {
        linked := set d | d in names;
      } else {
        linked := BpLinkedSourceNames(scope, names);
      }
      assert forall d :: d in linked <==> Guarded(projects, raw, every, scope, d);
      if d :| d in linked && multiset(cleaned)[d] > 1 {
        assert Guarded(projects, raw, every, scope, d);
        return Raised(Duplicate);
      }
      return Ok(SortedSet(names, linked));
    }

    /** The reservation guard. `scope` is what a read without locks shows; `every` says that
        the caller bills only its own sources. It succeeds exactly when every guarded source is
        named once and passes the checks under lock; then it answers the guarded names, in
        lock order. */
    method GuardTimesheetDetails(raw: seq<Option<DetailId>>, current: Option<InvoiceId>, every: bool,
        scope: map<DetailId, Detail>, contended: bool)
      returns (r: Result<seq<DetailId>, Refusal>)
      ensures r.Ok? <==>
        GuardPasses(sources, projects, raw, current, every, scope)
        && !(contended && exists d :: Guarded(projects, raw, every, scope, d))
      ensures r.Ok? ==> Ascending(r.value) && forall d :: d in r.value <==> Guarded(projects, raw, every, scope, d)
      ensures r == Raised(Duplicate) <==> exists d :: Guarded(projects, raw, every, scope, d) && multiset(raw)[Some(d)] > 1
      ensures r.Ok? ==> forall d :: d in r.value <==>
        && Some(d) in raw
        && (every || (d in scope && (scope[d].task || (scope[d].project.Some? && scope[d].project.value in projects))))
      ensures r.Ok? ==> forall d :: d in r.value ==>
        d in sources.details && sources.details[d].docstatus == 1 && sources.details[d].billable
      ensures r.Ok? ==> forall d :: d in r.value ==> Usable(sources, d, current)
      ensures r == Raised(Missing) ==> exists d :: Guarded(projects, raw, every, scope, d) && d !in sources.details
      ensures r == Raised(NotInvoiceable) ==> exists d :: Guarded(projects, raw, every, scope, d) && Unusable(sources, d)
      ensures r == Raised(AlreadyBilled) ==>
        exists d :: Guarded(projects, raw, every, scope, d) && Stamped(sources, d, current)
      ensures r == Raised(AlreadyClaimed) ==>
        exists d, i :: Guarded(projects, raw, every, scope, d) && OnLiveInvoice(sources, d, i, current)
      ensures r == Raised(Contended) ==> contended
    {
      GuardedMeans(projects, raw, every, scope);
      hide Guarded, Ascending, Unusable, Stamped, OnLiveInvoice, SourceOk;
      r := GuardedNames(raw, every, scope);
      if r.Raised? {
        return r;
      }
      assert r.value != [] ==> r.value[0] in r.value;
      var refusal := CheckLocked(r.value, current, contended);
      if refusal.Some? {
        return Raised(refusal.value);
      }
      forall d | d in r.value ensures SourceOk(sources, d, current) && Usable(sources, d, current) {
        SourceOkMeans(sources, d, current);
      }
    }
  }

  /** In the rows' own fields: submitted and billable, and neither billed nor claimed elsewhere. */
  ghost predicate Usable(s: Sources, d: DetailId, current: Option<InvoiceId>) {
    && d in s.details && s.details[d].docstatus == 1 && s.details[d].billable
    && (s.details[d].invoice == None || s.details[d].invoice == current)
    && forall i :: 0 <= i < |s.invoices| && d in s.invoices[i].lines && current != Some(i) ==>
         s.invoices[i].docstatus == CancelledDoc || s.invoices[i].docstatus == DeletedDoc
  }

  lemma SourceOkMeans(s: Sources, d: DetailId, current: Option<InvoiceId>)
    ensures SourceOk(s, d, current) <==> Usable(s, d, current)
  {
    assert Usable(s, d, current) ==> !ClaimedElsewhere(s, d, current);
  }

  /** The native claimants of `names` on live invoices other than `current`. */
  function LiveClaims(s: Sources, names: seq<DetailId>, current: Option<InvoiceId>): set<(DetailId, InvoiceId)> {
    set d, i | d in names && 0 <= i < |s.invoices| && Live(s.invoices[i]) && current != Some(i)
      && d in s.invoices[i].lines :: (d, i)
  }

  lemma NoClaims(s: Sources, names: seq<DetailId>, current: Option<InvoiceId>)
    ensures LiveClaims(s, names, current) == {} <==> forall d :: d in names ==> !ClaimedElsewhere(s, d, current)
  {
    if d, i :| d in names && 0 <= i < |s.invoices| && Live(s.invoices[i]) && current != Some(i) && d in s.invoices[i].lines {
      assert (d, i) in LiveClaims(s, names, current);
    }
  }

  lemma CleanedIsRaw(raw: seq<Option<DetailId>>, cleaned: seq<DetailId>)
    requires forall d :: multiset(cleaned)[d] == multiset(raw)[Some(d)]
    ensures forall d :: d in cleaned <==> Some(d) in raw
  {
    forall d ensures d in cleaned <==> Some(d) in raw {
      assert d in cleaned <==> d in multiset(cleaned);
      assert Some(d) in raw <==> Some(d) in multiset(raw);
    }
  }

  /** The details a guard covers: the named ones, all of them or the owned ones in scope. */
  ghost predicate Guarded(projects: set<ProjectId>, raw: seq<Option<DetailId>>, every: bool, scope: map<DetailId, Detail>,
    d: DetailId)
  {
    Some(d) in raw && (every || (d in scope && Owned(scope[d], projects)))
  }

  lemma GuardedMeans(projects: set<ProjectId>, raw: seq<Option<DetailId>>, every: bool, scope: map<DetailId, Detail>)
    ensures forall d :: Guarded(projects, raw, every, scope, d) <==>
      && Some(d) in raw
      && (every || (d in scope && (scope[d].task || (scope[d].project.Some? && scope[d].project.value in projects))))
  {
  }

  /** What a guard demands of one source under its lock. */
  ghost predicate SourceOk(s: Sources, d: DetailId, current: Option<InvoiceId>) {
    && d in s.details && Invoiceable(s.details[d])
    && !BilledElsewhere(s.details[d], current)
    && !ClaimedElsewhere(s, d, current)
  }

  ghost predicate GuardPasses(s: Sources, projects: set<ProjectId>, raw: seq<Option<DetailId>>, current: Option<InvoiceId>,
    every: bool, scope: map<DetailId, Detail>)
  {
    forall d :: Guarded(projects, raw, every, scope, d) ==> multiset(raw)[Some(d)] <= 1 && SourceOk(s, d, current)
  }
}
