/** Reservation of Expense Claim Details: the guard locks parents, details, types and the
    invoices they point at, and answers every requested source with values read under lock,
    although the parents it locked were discovered without one. */
module ExpenseReservation {
  import opened Basics
  import opened Names

  type ClaimId = nat
  type DetailId = nat
  type TypeId = nat
  type InvoiceId = nat
  type ProjectId = nat

  datatype Policy = AtCost | AtCostMarkup | NotBillable

  datatype ClaimRow = ClaimRow(project: Option<ProjectId>, docstatus: nat, postingDate: int)

  datatype DetailRow = DetailRow(
    parent: ClaimId, docstatus: nat, expenseType: Option<TypeId>, amount: real, billable: bool,
    invoice: Option<InvoiceId>)

  datatype TypeRow = TypeRow(policy: Policy, markup: real)

  /** The rows as locking reads see them; `invoices` maps a Sales Invoice to its docstatus. */
  datatype Tables = Tables(
    claims: map<ClaimId, ClaimRow>,
    details: map<DetailId, DetailRow>,
    types: map<TypeId, TypeRow>,
    invoices: map<InvoiceId, nat>)

  /** What the caller bills from. */
  datatype Source = Source(
    name: DetailId, claim: ClaimId, expenseType: Option<TypeId>, amount: real, postingDate: int, policy: Policy, markup: real)

  datatype Refusal = Missing | ChangedParent | NotInvoiceable | PolicyBlocks | Reserved

  predicate ParentStands(t: Tables, seen: map<DetailId, ClaimId>, d: DetailId)
    requires d in t.details
  {
    d in seen && t.details[d].parent == seen[d] && seen[d] in t.claims
  }

  predicate Invoiceable(t: Tables, d: DetailId, project: Option<ProjectId>)
    requires d in t.details && t.details[d].parent in t.claims
  {
    var claim := t.claims[t.details[d].parent];
    claim.docstatus == 1 && t.details[d].docstatus == 1 && claim.project == project && t.details[d].billable
  }

  function TypeOf(t: Tables, d: DetailId): TypeRow
    requires d in t.details
  {
    var e := t.details[d].expenseType;
    if e.Some? && e.value in t.types then t.types[e.value] else TypeRow(AtCost, 0.0)
  }

  predicate HasLiveInvoice(t: Tables, d: DetailId)
    requires d in t.details
  {
    var i := t.details[d].invoice;
    i.Some? && i.value in t.invoices && t.invoices[i.value] < 2
  }

  function SourceOf(t: Tables, d: DetailId): Source
    requires d in t.details && t.details[d].parent in t.claims
  {
    var row := t.details[d];
    Source(d, row.parent, row.expenseType, row.amount, t.claims[row.parent].postingDate,
           TypeOf(t, d).policy, TypeOf(t, d).markup)
  }

  /** The first check that some name fails, in the order of the guard. */
  ghost function FirstFailure(t: Tables, seen: map<DetailId, ClaimId>, names: seq<DetailId>, project: Option<ProjectId>):
    Option<Refusal>
  {
    if exists d :: d in names && d !in t.details then Some(Missing)
    else if exists d :: d in names && !ParentStands(t, seen, d) then Some(ChangedParent)
    else if exists d :: d in names && !Invoiceable(t, d, project) then Some(NotInvoiceable)
    else if exists d :: d in names && TypeOf(t, d).policy == NotBillable then Some(PolicyBlocks)
    else if exists d :: d in names && HasLiveInvoice(t, d) then Some(Reserved)
    else None
  }

  /** In the rows' own fields: `d` may be billed for `project`, and `source` is what it says. */
  ghost predicate Billable(t: Tables, seen: map<DetailId, ClaimId>, d: DetailId, project: Option<ProjectId>, source: Source) {
    && d in t.details && d in seen && t.details[d].parent == seen[d] && seen[d] in t.claims
    && var row, claim := t.details[d], t.claims[seen[d]];
       && claim.docstatus == 1 && claim.project == project && row.docstatus == 1 && row.billable
       && (row.invoice.Some? && row.invoice.value in t.invoices ==>
             t.invoices[row.invoice.value] != 0 && t.invoices[row.invoice.value] != 1)
       && source.name == d && source.claim == seen[d] && source.expenseType == row.expenseType
       && source.amount == row.amount && source.postingDate == claim.postingDate && source.policy != NotBillable
       && if row.expenseType.Some? && row.expenseType.value in t.types then
            source.policy == t.types[row.expenseType.value].policy && source.markup == t.types[row.expenseType.value].markup
          else source.policy == AtCost && source.markup == 0.0
  }

  /** In the rows' own fields: why `d` may not be billed. */
  ghost predicate Refuses(t: Tables, seen: map<DetailId, ClaimId>, d: DetailId, project: Option<ProjectId>, why: Refusal) {
    match why
    case Missing => d !in t.details
    case ChangedParent => d in t.details && (d !in seen || t.details[d].parent != seen[d] || seen[d] !in t.claims)
    case NotInvoiceable =>
      && d in t.details && t.details[d].parent in t.claims
      && (t.details[d].docstatus != 1 || !t.details[d].billable
          || t.claims[t.details[d].parent].docstatus != 1 || t.claims[t.details[d].parent].project != project)
    case PolicyBlocks =>
      d in t.details && exists e :: e in t.types && t.details[d].expenseType == Some(e) && t.types[e].policy == NotBillable
    case Reserved =>
      d in t.details && exists i :: i in t.invoices && t.details[d].invoice == Some(i) && (t.invoices[i] == 0 || t.invoices[i] == 1)
  }

  lemma FailureMeansRefused(t: Tables, seen: map<DetailId, ClaimId>, names: seq<DetailId>, project: Option<ProjectId>)
    ensures var first := FirstFailure(t, seen, names, project);
      first.Some? ==> exists d :: d in names && Refuses(t, seen, d, project, first.value)
  {
    match FirstFailure(t, seen, names, project)
    case None =>
    case Some(Missing) =>
      var d :| d in names && d !in t.details;
      assert Refuses(t, seen, d, project, Missing);
    case Some(ChangedParent) =>
      var d :| d in names && !ParentStands(t, seen, d);
      assert Refuses(t, seen, d, project, ChangedParent);
    case Some(NotInvoiceable) =>
      var d :| d in names && !Invoiceable(t, d, project);
      assert Refuses(t, seen, d, project, NotInvoiceable);
    case Some(PolicyBlocks) =>
      var d :| d in names && TypeOf(t, d).policy == NotBillable;
      assert Refuses(t, seen, d, project, PolicyBlocks);
    case Some(Reserved) =>
      var d :| d in names && HasLiveInvoice(t, d);
      assert Refuses(t, seen, d, project, Reserved);
  }

  lemma FailureMeansFirst(t: Tables, seen: map<DetailId, ClaimId>, names: seq<DetailId>, project: Option<ProjectId>)
    ensures var first := FirstFailure(t, seen, names, project);
      first.Some? ==> forall d :: d in names ==>
        && (first.value != Missing ==> d in t.details)
        && (first.value != Missing && first.value != ChangedParent ==> !Refuses(t, seen, d, project, ChangedParent))
        && (first.value == PolicyBlocks || first.value == Reserved ==> !Refuses(t, seen, d, project, NotInvoiceable))
        && (first.value == Reserved ==> !Refuses(t, seen, d, project, PolicyBlocks))
  {
  }

  lemma PassedMeansBillable(t: Tables, seen: map<DetailId, ClaimId>, names: seq<DetailId>, project: Option<ProjectId>)
    requires FirstFailure(t, seen, names, project) == None
    ensures forall d :: d in names ==>
      d in t.details && t.details[d].parent in t.claims && Billable(t, seen, d, project, SourceOf(t, d))
  {
    forall d | d in names
      ensures d in t.details && t.details[d].parent in t.claims && Billable(t, seen, d, project, SourceOf(t, d))
    {
      PassedMeans(t, seen, names, project, d);
    }
  }

  class ExpenseTables {
    var t: Tables

    method CheckParents(seen: map<DetailId, ClaimId>, names: seq<DetailId>) returns (ok: bool)
      requires forall d :: d in names ==> d in t.details
      ensures ok <==> forall d :: d in names ==> d in seen && t.details[d].parent == seen[d] && seen[d] in t.claims
      ensures ok <==> forall d :: d in names ==> ParentStands(t, seen, d)
    {
      var parents := set d | d in names && d in seen && seen[d] in t.claims :: seen[d];
      var changed: seq<DetailId> := [];
      for k := 0 to |names|
        invariant changed == [] <==> forall j :: 0 <= j < k ==> ParentStands(t, seen, names[j])
      {
        var row := t.details[names[k]];
        if names[k] !in seen || row.parent != seen[names[k]] || row.parent !in parents {
          changed := changed + [names[k]];
        }
      }
      ok := changed == [];
    }

    method CheckState(names: seq<DetailId>, project: Option<ProjectId>) returns (ok: bool)
      requires forall d :: d in names ==> d in t.details && t.details[d].parent in t.claims
      ensures ok <==> forall d :: d in names ==>
        var row, claim := t.details[d], t.claims[t.details[d].parent];
        claim.docstatus == 1 && row.docstatus == 1 && claim.project == project && row.billable
      ensures ok <==> forall d :: d in names ==> Invoiceable(t, d, project)
    {
      var invalid: seq<DetailId> := [];
      for k := 0 to |names|
        invariant invalid == [] <==> forall j :: 0 <= j < k ==> Invoiceable(t, names[j], project)
      {
        var row := t.details[names[k]];
        var parent := t.claims[row.parent];
        if parent.docstatus != 1 {
          invalid := invalid + [names[k]];
          continue;
        }
        if row.docstatus != 1 {
          invalid := invalid + [names[k]];
          continue;
        }
        if parent.project != project {
          invalid := invalid + [names[k]];
          continue;
        }
        if !row.billable {
          invalid := invalid + [names[k]];
        }
      }
      ok := invalid == [];
    }

    method CheckPolicies(names: seq<DetailId>) returns (ok: bool)
      requires forall d :: d in names ==> d in t.details
      ensures ok <==> forall d :: d in names ==>
        var e := t.details[d].expenseType;
        e.Some? && e.value in t.types ==> t.types[e.value].policy != NotBillable
      ensures ok <==> forall d :: d in names ==> TypeOf(t, d).policy != NotBillable
    {
      var blocked: seq<DetailId> := [];
      for k := 0 to |names|
        invariant blocked == [] <==> forall j :: 0 <= j < k ==> TypeOf(t, names[j]).policy != NotBillable
      {
        var e := t.details[names[k]].expenseType;
        var policy := if e.Some? && e.value in t.types then t.types[e.value].policy else AtCost;
        if policy == NotBillable {
          blocked := blocked + [names[k]];
        }
      }
      ok := blocked == [];
    }

    method CheckClaims(names: seq<DetailId>) returns (ok: bool)
      requires forall d :: d in names ==> d in t.details
      ensures ok <==> forall d :: d in names ==>
        var i := t.details[d].invoice;
        i.Some? && i.value in t.invoices ==> t.invoices[i.value] != 0 && t.invoices[i.value] != 1
      ensures ok <==> forall d :: d in names ==> !HasLiveInvoice(t, d)
    {
      var live: seq<DetailId> := [];
      for k := 0 to |names|
        invariant live == [] <==> forall j :: 0 <= j < k ==> !HasLiveInvoice(t, names[j])
      {
        var pointer := t.details[names[k]].invoice;
        if pointer.Some? {
          if pointer.value in t.invoices && t.invoices[pointer.value] < 2 {
            live := live + [names[k]];
          }
        }
      }
      ok := live == [];
    }

    method Authoritative(names: seq<DetailId>) returns (sources: seq<Source>)
      requires forall d :: d in names ==> d in t.details && t.details[d].parent in t.claims
      ensures |sources| == |names| && forall k :: 0 <= k < |names| ==> sources[k] == SourceOf(t, names[k])
    {
      sources := [];
      for k := 0 to |names|
        invariant |sources| == k
        invariant forall j :: 0 <= j < k ==> sources[j] == SourceOf(t, names[j])
      {
        sources := sources + [SourceOf(t, names[k])];
      }
    }

    /** The reservation guard. `seen` is the unlocked discovery of parents. It refuses with the
        first check that some source fails under lock; otherwise it answers exactly the
        distinct requested names, in lock order, each with its locked values. */
    method GuardExpenseClaimDetails(names: seq<DetailId>, project: Option<ProjectId>, seen: map<DetailId, ClaimId>)
      returns (r: Result<seq<Source>, Refusal>)
      ensures var first := FirstFailure(t, seen, SortedNames(names), project);
        r.Raised? == first.Some? && (r.Raised? ==> r.error == first.value)
      ensures r.Ok? ==> |r.value| == |SortedNames(names)|
      ensures r.Ok? ==> forall k :: 0 <= k < |r.value| ==>
        var d := SortedNames(names)[k];
        d in t.details && t.details[d].parent in t.claims && r.value[k] == SourceOf(t, d)
      ensures r.Ok? ==> forall k :: 0 <= k < |r.value| ==> Billable(t, seen, SortedNames(names)[k], project, r.value[k])
      ensures r.Raised? ==> exists d :: d in names && Refuses(t, seen, d, project, r.error)
      ensures r.Raised? && r.error != Missing ==> forall d :: d in names ==> d in t.details
      ensures r.Raised? && r.error != Missing && r.error != ChangedParent ==>
        forall d :: d in names ==> !Refuses(t, seen, d, project, ChangedParent)
      ensures r == Raised(PolicyBlocks) || r == Raised(Reserved) ==>
        forall d :: d in names ==> !Refuses(t, seen, d, project, NotInvoiceable)
      ensures r == Raised(Reserved) ==> forall d :: d in names ==> !Refuses(t, seen, d, project, PolicyBlocks)
    {
      var sorted := SortedNames(names);
      FailureMeansRefused(t, seen, sorted, project);
      FailureMeansFirst(t, seen, sorted, project);
      hide Invoiceable, HasLiveInvoice, SourceOf, Billable, Refuses, TypeOf, ParentStands;
      if exists d :: d in sorted && d !in t.details {
        return Raised(Missing);
      }
      var ok := CheckParents(seen, sorted);
      if !ok {
        return Raised(ChangedParent);
      }
      ok := CheckState(sorted, project);
      if !ok {
        return Raised(NotInvoiceable);
      }
      ok := CheckPolicies(sorted);
      if !ok {
        return Raised(PolicyBlocks);
      }
      ok := CheckClaims(sorted);
      if !ok {
        return Raised(Reserved);
      }
      PassedMeansBillable(t, seen, sorted, project);
      var authoritative := Authoritative(sorted);
      return Ok(authoritative);
    }
  }

  /** The draft of a guarded generation: a new invoice, and every source pointing at it. */
  function Stamp(t: Tables, names: seq<DetailId>, invoice: InvoiceId): Tables {
    t.(details := map d | d in t.details :: if d in names then t.details[d].(invoice := Some(invoice)) else t.details[d],
       invoices := t.invoices[invoice := 0])
  }

  lemma PassedMeans(t: Tables, seen: map<DetailId, ClaimId>, names: seq<DetailId>, project: Option<ProjectId>, d: DetailId)
    requires FirstFailure(t, seen, names, project) == None && d in names
    ensures d in t.details && ParentStands(t, seen, d) && Invoiceable(t, d, project)
    ensures TypeOf(t, d).policy != NotBillable && !HasLiveInvoice(t, d)
  {
  }
}
