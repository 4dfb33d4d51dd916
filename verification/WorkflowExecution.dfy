/** Durable workflow executions: one leased row per (workflow, event) and one step row per
    (execution, node). The functions say what each conditional UPDATE does to the rows of
    one execution; the class runs the requests on the whole table. */
module WorkflowExecution {
  import opened Basics

  type Owner = nat
  type Node = nat

  /** The name of an execution: its key is an injective hash of workflow and event. */
  datatype ExecutionId = ExecutionId(workflow: nat, event: nat)

  datatype Terminal = Succeeded | Failed | NeedsReview

  datatype ExecutionStatus = Pending | Running | Ended(how: Terminal)

  datatype StepStatus = Claimed | Dispatching | Finished(how: Terminal)

  datatype EffectKind = FrappeAtomic | External

  /** The identity a lease holder presents with every write. */
  datatype Lease = Lease(owner: Owner, generation: nat)

  /** `definition` stands for the workflow revision together with its definition hash. */
  datatype Execution = Execution(
    definition: nat,
    status: ExecutionStatus,
    owner: Option<Owner>,
    generation: nat,
    expires: Option<int>,
    reason: Option<string>)

  datatype Step = Step(kind: EffectKind, status: StepStatus, result: Option<nat>)

  /** One execution row with its step rows; every write to any of them holds its row lock. */
  datatype Ledger = Ledger(execution: Execution, steps: map<Node, Step>)

  /** What a local action answered: `failed` is its "Failed" status. */
  datatype Answer = Answer(failed: bool, body: nat)

  function HowOf(answer: Answer): Terminal {
    if answer.failed then Failed else Succeeded
  }

  datatype Error = LeaseInvalid | KindChanged | TransitionRejected | ActionRaised | StepNotVisible

  const DEFINITION_CHANGED := "definition_changed"

  // ----- the conditional writes -----

  function LeaseSeconds(requested: int): (seconds: int)
    ensures 10 <= seconds <= 300
    ensures 10 <= requested <= 300 ==> seconds == requested
    ensures requested == 0 ==> seconds == 60
  {
    var asked := if requested == 0 then 60 else requested;
    if asked > 300 then 300 else if asked < 10 then 10 else asked
  }

  /** Whoever asks for more is not given less. */
  lemma LeaseGrowsWithTheRequest(less: int, more: int)
    requires less <= more && less != 0 && more != 0
    ensures LeaseSeconds(less) <= LeaseSeconds(more)
  {
  }

  predicate Recoverable(e: Execution, now: int) {
    e.status == Pending || (e.status == Running && (e.expires.None? || e.expires.value < now))
  }

  predicate Live(e: Execution, lease: Lease, now: int) {
    e.status == Running && HeldBy(e, lease) && e.expires.Some? && e.expires.value >= now
  }

  predicate HeldBy(e: Execution, lease: Lease) {
    e.owner == Some(lease.owner) && e.generation == lease.generation
  }

  /** The execution after a claim by `owner`, or None when no row matches. */
  function Claim(e: Execution, owner: Owner, requested: int, now: int): Option<Execution> {
    if Recoverable(e, now) then
      Some(e.(owner := Some(owner), generation := e.generation + 1,
              expires := Some(now + LeaseSeconds(requested)), status := Running))
    else
      None
  }

  function Renew(e: Execution, lease: Lease, requested: int, now: int): Option<Execution> {
    if Live(e, lease, now) then Some(e.(expires := Some(now + LeaseSeconds(requested)))) else None
  }

  function End(e: Execution, lease: Lease, how: Terminal, reason: Option<string>, now: int): Option<Execution> {
    if Live(e, lease, now) then Some(e.(status := Ended(how), reason := reason, expires := Some(now))) else None
  }

  /** The unguarded write of the recovery scan. */
  function Mark(e: Execution): Execution {
    e.(status := Ended(NeedsReview), reason := Some(DEFINITION_CHANGED))
  }

  datatype Found = Found(ledger: Ledger, step: Step, created: bool)

  /** Look up the step in the transaction's snapshot, insert it, or fall back to the row that
      made the insert a duplicate. Only the first of the three compares the effect kind. */
  function GetOrCreateStep(l: Ledger, snap: map<Node, Step>, node: Node, kind: EffectKind, lease: Lease, now: int):
    Result<Found, Error>
  {
    if !Live(l.execution, lease, now) then Raised(LeaseInvalid)
    else if node in snap then
      if snap[node].kind != kind then Raised(KindChanged) else Ok(Found(l, snap[node], false))
    else if node !in l.steps then
      var step := Step(kind, Claimed, None);
      Ok(Found(l.(steps := l.steps[node := step]), step, true))
    else Ok(Found(l, l.steps[node], false))
  }

  /** claimed → dispatching, and whether this call is the one that did it. */
  function Dispatch(l: Ledger, node: Node): (Ledger, bool) {
    if node in l.steps && l.steps[node].status == Claimed then
      (l.(steps := l.steps[node := l.steps[node].(status := Dispatching)]), true)
    else
      (l, false)
  }

  /** The external step as the call that may have dispatched it reads it back: its own write if
      there was one, otherwise the step as its snapshot has it, however old. */
  function ReadBack(l: Ledger, snap: map<Node, Step>, node: Node): Option<Step> {
    if Dispatch(l, node).1 then Some(Dispatch(l, node).0.steps[node])
    else if node in snap then Some(snap[node])
    else None
  }

  function FinishStep(l: Ledger, node: Node, lease: Lease, how: Terminal, result: Option<nat>, now: int):
    Result<Ledger, Error>
  {
    if !Live(l.execution, lease, now) then Raised(LeaseInvalid)
    else if node in l.steps && !l.steps[node].status.Finished? then
      Ok(l.(steps := l.steps[node := l.steps[node].(status := Finished(how), result := result)]))
    else Raised(TransitionRejected)
  }

  /** What a request to run a local action does with the step it found. */
  datatype LocalPlan = Run | Replay(step: Step) | Refuse(error: Error)

  function PlanLocal(step: Step): LocalPlan {
    if step.kind != FrappeAtomic then Refuse(KindChanged)
    else if step.status == Claimed then Run
    else Replay(step)
  }

  // ----- the requests on the table -----

  datatype ClaimReply = Leased(generation: nat, expires: int) | NotClaimed(reason: Refusal)

  datatype Refusal = ExecutionNotFound | Because(reason: string) | InStatus(status: ExecutionStatus)

  datatype AdmitReply = Admitted(created: bool, status: ExecutionStatus) | DefinitionChanged

  datatype LocalReply = LocalReply(step: Step, ran: bool)

  datatype ExternalReply = ExternalReply(step: Step, created: bool, confirmed: Option<bool>)

  function Refused(ledgers: map<ExecutionId, Ledger>, id: ExecutionId): Refusal {
    if id !in ledgers then ExecutionNotFound
    else match ledgers[id].execution.reason
      case Some(r) => if r != "" then Because(r) else InStatus(ledgers[id].execution.status)
      case None => InStatus(ledgers[id].execution.status)
  }

  /** The scan's rows, in creation order. */
  function Scan(order: seq<ExecutionId>, ledgers: map<ExecutionId, Ledger>, now: int): seq<ExecutionId> {
    if order == [] then []
    else if order[0] in ledgers && Recoverable(ledgers[order[0]].execution, now) then
      [order[0]] + Scan(order[1..], ledgers, now)
    else
      Scan(order[1..], ledgers, now)
  }

  function Limit(requested: int): (limit: nat)
    ensures 1 <= limit <= 250
    ensures 1 <= requested <= 250 ==> limit == requested
    ensures requested == 0 ==> limit == 100
  {
    var asked := if requested == 0 then 100 else requested;
    if asked > 250 then 250 else if asked < 1 then 1 else asked
  }

  lemma LimitGrowsWithTheRequest(less: int, more: int)
    requires less <= more && less != 0 && more != 0
    ensures Limit(less) <= Limit(more)
  {
  }

  function Take<T>(s: seq<T>, n: nat): seq<T> {
    if |s| <= n then s else s[..n]
  }

  predicate Unchanged(ledgers: map<ExecutionId, Ledger>, definitions: map<nat, nat>, id: ExecutionId) {
    id in ledgers && id.workflow in definitions && definitions[id.workflow] == ledgers[id].execution.definition
  }

  class WorkflowTable {
    var ledgers: map<ExecutionId, Ledger>
    var order: seq<ExecutionId>

    /** Create or return the single execution of one (workflow, event) pair. */
    method Admit(id: ExecutionId, definition: nat, expected: Option<nat>) returns (reply: AdmitReply)
      modifies this
      ensures reply == DefinitionChanged <==>
        (expected.Some? && expected.value != definition)
        || (id in old(ledgers) && old(ledgers)[id].execution.definition != definition)
      ensures reply.Admitted? ==> reply.created == (id !in old(ledgers))
      ensures reply.Admitted? ==> id in ledgers && reply.status == ledgers[id].execution.status
      ensures forall k :: k in old(ledgers) ==> k in ledgers && ledgers[k] == old(ledgers)[k]
      ensures ledgers.Keys == old(ledgers).Keys + (if reply.Admitted? then {id} else {})
      ensures reply.Admitted? && reply.created ==>
        ledgers[id] == Ledger(Execution(definition, Pending, None, 0, None, None), map[]) && order == old(order) + [id]
      ensures !(reply.Admitted? && reply.created) ==> order == old(order)
    {
      if expected.Some? && expected.value != definition {
        return DefinitionChanged;
      }
      if id !in ledgers {
        ledgers := ledgers[id := Ledger(Execution(definition, Pending, None, 0, None, None), map[])];
        order := order + [id];
        return Admitted(true, Pending);
      }
      if ledgers[id].execution.definition != definition {
        return DefinitionChanged;
      }
      return Admitted(false, ledgers[id].execution.status);
    }

    /** A claim succeeds exactly on a pending execution or an expired run, and then raises
        the generation by one; anything else changes nothing. */
    method ClaimLease(id: ExecutionId, owner: Owner, requested: int, now: int) returns (reply: ClaimReply)
      modifies this`ledgers
      ensures reply.Leased? <==>
        && id in old(ledgers)
        && var e := old(ledgers)[id].execution;
           e.status == Pending || (e.status == Running && (e.expires == None || e.expires.value < now))
      ensures reply.Leased? ==>
        var l := old(ledgers)[id];
        var e := l.execution;
        && reply.generation == e.generation + 1 && reply.expires == now + LeaseSeconds(requested)
        && ledgers == old(ledgers)[id :=
             Ledger(Execution(e.definition, Running, Some(owner), e.generation + 1, Some(reply.expires), e.reason), l.steps)]
      ensures id in old(ledgers) ==>
        Claim(old(ledgers)[id].execution, owner, requested, now) == if reply.Leased? then Some(ledgers[id].execution) else None
      ensures reply.NotClaimed? ==> ledgers == old(ledgers)
      ensures reply.NotClaimed? ==>
        if id !in ledgers then reply.reason == ExecutionNotFound
        else
          var e := ledgers[id].execution;
          reply.reason == if e.reason.Some? && e.reason.value != "" then Because(e.reason.value) else InStatus(e.status)
    {
      if id in ledgers && Recoverable(ledgers[id].execution, now) {
        var l := ledgers[id];
        var e := l.execution;
        e := e.(owner := Some(owner), generation := e.generation + 1);
        e := e.(expires := Some(now + LeaseSeconds(requested)), status := Running);
        ledgers := ledgers[id := l.(execution := e)];
        return Leased(e.generation, e.expires.value);
      }
      return NotClaimed(Refused(ledgers, id));
    }

    method RenewLease(id: ExecutionId, lease: Lease, requested: int, now: int) returns (renewed: bool)
      modifies this`ledgers
      ensures renewed <==>
        && id in old(ledgers)
        && var e := old(ledgers)[id].execution;
           && e.status == Running && e.owner == Some(lease.owner) && e.generation == lease.generation
           && e.expires.Some? && now <= e.expires.value
      ensures renewed ==>
        var l := old(ledgers)[id];
        ledgers == old(ledgers)[id := l.(execution := l.execution.(expires := Some(now + LeaseSeconds(requested))))]
      ensures id in old(ledgers) ==>
        Renew(old(ledgers)[id].execution, lease, requested, now) == if renewed then Some(ledgers[id].execution) else None
      ensures !renewed ==> ledgers == old(ledgers)
    {
      renewed := id in ledgers && Live(ledgers[id].execution, lease, now);
      if renewed {
        var l := ledgers[id];
        ledgers := ledgers[id := l.(execution := l.execution.(expires := Some(now + LeaseSeconds(requested))))];
      }
    }

    method FinishExecution(id: ExecutionId, lease: Lease, how: Terminal, reason: Option<string>, now: int)
      returns (finished: bool)
      modifies this`ledgers
      ensures finished <==>
        && id in old(ledgers)
        && var e := old(ledgers)[id].execution;
           && e.status == Running && e.owner == Some(lease.owner) && e.generation == lease.generation
           && e.expires.Some? && now <= e.expires.value
      ensures finished ==>
        var l := old(ledgers)[id];
        var e := l.execution;
        ledgers == old(ledgers)[id :=
          Ledger(Execution(e.definition, Ended(how), e.owner, e.generation, Some(now), reason), l.steps)]
      ensures id in old(ledgers) ==>
        End(old(ledgers)[id].execution, lease, how, reason, now) == if finished then Some(ledgers[id].execution) else None
      ensures !finished ==> ledgers == old(ledgers)
    {
      finished := id in ledgers && Live(ledgers[id].execution, lease, now);
      if finished {
        var l := ledgers[id];
        ledgers := ledgers[id :=
          l.(execution := l.execution.(status := Ended(how), reason := reason, expires := Some(now)))];
      }
    }

    /** `snap` is what non-locking step reads of this transaction see. */
    method BeginExternalStep(id: ExecutionId, node: Node, lease: Lease, snap: map<Node, Step>, now: int, later: int)
      returns (reply: Result<ExternalReply, Error>)
      modifies this`ledgers
      ensures id !in old(ledgers) ==> reply == Raised(LeaseInvalid)
      ensures reply.Raised? ==> ledgers == old(ledgers)
      ensures id in old(ledgers) ==>
        var l := old(ledgers)[id];
        var e := l.execution;
        var held := e.status == Running && e.owner == Some(lease.owner) && e.generation == lease.generation && e.expires.Some?;
        var created := node !in snap && node !in l.steps;
        var row := if node in l.steps then l.steps[node] else Step(External, Claimed, None);
        var seen := if node in snap then snap[node] else row;
        if !held || e.expires.value < now then reply == Raised(LeaseInvalid)
        else if node in snap && snap[node].kind != External then reply == Raised(KindChanged)
        else if seen.status.Finished? then
          reply == Ok(ExternalReply(seen, false, None)) && ledgers == old(ledgers)
        else if e.expires.value < later then reply == Raised(LeaseInvalid)
        else if created || (node in l.steps && row.status == Claimed) then
          && reply == Ok(ExternalReply(Step(row.kind, Dispatching, row.result), created, Some(true)))
          && ledgers == old(ledgers)[id := Ledger(e, l.steps[node := Step(row.kind, Dispatching, row.result)])]
        else if node in snap then
          reply == Ok(ExternalReply(snap[node], false, Some(false))) && ledgers == old(ledgers)
        else reply == Raised(StepNotVisible)
      ensures reply.Ok? && reply.value.confirmed.Some? ==>
        var f := GetOrCreateStep(old(ledgers)[id], snap, node, External, lease, now);
        && f.Ok? && Dispatch(f.value.ledger, node) == (ledgers[id], reply.value.confirmed.value)
        && ReadBack(f.value.ledger, snap, node) == Some(reply.value.step)
    {
      if id !in ledgers {
        return Raised(LeaseInvalid);
      }
      var f := GetOrCreateStep(ledgers[id], snap, node, External, lease, now);
      if f.Raised? {
        return Raised(f.error);
      }
      if f.value.step.status.Finished? {
        return Ok(ExternalReply(f.value.step, f.value.created, None));
      }
      if !Live(f.value.ledger.execution, lease, later) {
        return Raised(LeaseInvalid);
      }
      var l := f.value.ledger;
      if node in l.steps && l.steps[node].status == Claimed {
        var step := l.steps[node].(status := Dispatching);
        assert l.steps[node := step] == ledgers[id].steps[node := step];
        ledgers := ledgers[id := l.(steps := l.steps[node := step])];
        return Ok(ExternalReply(step, f.value.created, Some(true)));
      }
      if node !in snap {
        return Raised(StepNotVisible);
      }
      return Ok(ExternalReply(snap[node], f.value.created, Some(false)));
    }

    method FinishWorkflowStep(id: ExecutionId, node: Node, lease: Lease, how: Terminal, result: Option<nat>, now: int)
      returns (reply: Result<Step, Error>)
      modifies this`ledgers
      ensures reply.Raised? ==> ledgers == old(ledgers)
      ensures id !in old(ledgers) ==> reply == Raised(LeaseInvalid)
      ensures id in old(ledgers) ==>
        var l := old(ledgers)[id];
        var e := l.execution;
        var held := e.status == Running && e.owner == Some(lease.owner) && e.generation == lease.generation && e.expires.Some?;
        if !held || e.expires.value < now then reply == Raised(LeaseInvalid)
        else if node !in l.steps || l.steps[node].status.Finished? then reply == Raised(TransitionRejected)
        else
          && reply == Ok(Step(l.steps[node].kind, Finished(how), result))
          && ledgers == old(ledgers)[id := Ledger(e, l.steps[node := Step(l.steps[node].kind, Finished(how), result)])]
      ensures id in old(ledgers) ==>
        FinishStep(old(ledgers)[id], node, lease, how, result, now)
          == if reply.Ok? then Ok(ledgers[id]) else Raised(reply.error)
    {
      if id !in ledgers || !Live(ledgers[id].execution, lease, now) {
        return Raised(LeaseInvalid);
      }
      var l := ledgers[id];
      if node !in l.steps || l.steps[node].status.Finished? {
        return Raised(TransitionRejected);
      }
      var step := Step(l.steps[node].kind, Finished(how), result);
      ledgers := ledgers[id := l.(steps := l.steps[node := step])];
      return Ok(step);
    }

    /** Run a local action and record it in one transaction; `answer` is None when the action
        raises. Either nothing changes, or the step is recorded with the action's own answer;
        a step that is already recorded is answered from the row. */
    method RunLocalStep(id: ExecutionId, node: Node, lease: Lease, snap: map<Node, Step>, now: int, later: int,
        answer: Option<Answer>)
      returns (reply: Result<LocalReply, Error>)
      modifies this`ledgers
      ensures reply.Raised? ==> ledgers == old(ledgers)
      ensures id !in old(ledgers) ==> reply == Raised(LeaseInvalid)
      ensures id in old(ledgers) ==>
        var l := old(ledgers)[id];
        var e := l.execution;
        var held := e.status == Running && e.owner == Some(lease.owner) && e.generation == lease.generation && e.expires.Some?;
        var row := if node in l.steps then l.steps[node] else Step(FrappeAtomic, Claimed, None);
        var seen := if node in snap then snap[node] else row;
        if !held || e.expires.value < now then reply == Raised(LeaseInvalid)
        else if seen.kind != FrappeAtomic then reply == Raised(KindChanged)
        else if seen.status != Claimed then reply == Ok(LocalReply(seen, false)) && ledgers == old(ledgers)
        else if answer.None? then reply == Raised(ActionRaised)
        else if e.expires.value < later then reply == Raised(LeaseInvalid)
        else if (node in snap && node !in l.steps) || row.status.Finished? then reply == Raised(TransitionRejected)
        else
          var how := if answer.value.failed then Failed else Succeeded;
          && reply == Ok(LocalReply(Step(row.kind, Finished(how), Some(answer.value.body)), true))
          && ledgers == old(ledgers)[id := Ledger(e, l.steps[node := reply.value.step])]
    {
      if id !in ledgers {
        return Raised(LeaseInvalid);
      }
      var f := GetOrCreateStep(ledgers[id], snap, node, FrappeAtomic, lease, now);
      if f.Raised? {
        return Raised(f.error);
      }
      var plan := PlanLocal(f.value.step);
      if plan.Refuse? {
        return Raised(plan.error);
      }
      if plan.Replay? {
        return Ok(LocalReply(plan.step, false));
      }
      if answer.None? {
        return Raised(ActionRaised);
      }
      var l := FinishStep(f.value.ledger, node, lease, HowOf(answer.value), Some(answer.value.body), later);
      if l.Raised? {
        return Raised(l.error);
      }
      assert l.value.steps == ledgers[id].steps[node := l.value.steps[node]];
      ledgers := ledgers[id := l.value];
      return Ok(LocalReply(l.value.steps[node], true));
    }

    /** The recovery scan: of the recoverable rows up to the limit, those whose definition
        still stands are returned, in creation order, and the others are marked. */
    method RecoverableExecutions(requested: int, definitions: map<nat, nat>, now: int)
      returns (result: seq<ExecutionId>)
      modifies this`ledgers
      ensures var rows := Take(Scan(order, old(ledgers), now), Limit(requested));
        && result == Standing(old(ledgers), definitions, rows)
        && ledgers == Recovered(old(ledgers), definitions, rows)
    {
      var rows := Take(Scan(order, ledgers, now), Limit(requested));
      ScanIsRecoverable(order, ledgers, now);
      result := [];
      ghost var before := ledgers;
      for i := 0 to |rows|
        invariant ledgers == Recovered(before, definitions, rows[..i])
        invariant result == Standing(before, definitions, rows[..i])
      {
        NextRow(before, definitions, rows, i);
        var stands := CheckDefinition(rows[i], definitions);
        if stands {
          result := result + [rows[i]];
        }
      }
      assert rows[..|rows|] == rows;
    }

    /** A row whose definition has changed is marked for review. */
    method CheckDefinition(id: ExecutionId, definitions: map<nat, nat>) returns (stands: bool)
      requires id in ledgers
      modifies this`ledgers
      ensures stands == Unchanged(old(ledgers), definitions, id)
      ensures ledgers == AfterCheck(old(ledgers), definitions, id)
    {
      stands := Unchanged(ledgers, definitions, id);
      if !stands {
        ledgers := ledgers[id := Marked(ledgers[id])];
      }
    }
  }

  function AfterCheck(ledgers: map<ExecutionId, Ledger>, definitions: map<nat, nat>, id: ExecutionId):
    map<ExecutionId, Ledger>
    requires id in ledgers
  {
    if Unchanged(ledgers, definitions, id) then ledgers else ledgers[id := Marked(ledgers[id])]
  }

  function Marked(l: Ledger): Ledger {
    l.(execution := Mark(l.execution))
  }

  /** The rows whose definition still stands, in their order. */
  function Standing(ledgers: map<ExecutionId, Ledger>, definitions: map<nat, nat>, rows: seq<ExecutionId>):
    seq<ExecutionId>
  {
    if rows == [] then []
    else
      var last := rows[|rows| - 1];
      Standing(ledgers, definitions, rows[..|rows| - 1]) + if Unchanged(ledgers, definitions, last) then [last] else []
  }

  /** The table after the scan has handled `rows`. */
  function Recovered(ledgers: map<ExecutionId, Ledger>, definitions: map<nat, nat>, rows: seq<ExecutionId>):
    map<ExecutionId, Ledger>
  {
    map id | id in ledgers ::
      if id in rows && !Unchanged(ledgers, definitions, id) then Marked(ledgers[id]) else ledgers[id]
  }

  /** What is answered are the listed rows whose definition stands. */
  lemma {:induction false} StandingMembers(ledgers: map<ExecutionId, Ledger>, definitions: map<nat, nat>,
    rows: seq<ExecutionId>, id: ExecutionId)
    ensures id in Standing(ledgers, definitions, rows) <==> id in rows && Unchanged(ledgers, definitions, id)
  {
    if rows != [] {
      var front, last := rows[..|rows| - 1], rows[|rows| - 1];
      assert rows == front + [last];
      StandingMembers(ledgers, definitions, front, id);
    }
  }

  lemma RecoveredOne(ledgers: map<ExecutionId, Ledger>, definitions: map<nat, nat>, rows: seq<ExecutionId>,
    id: ExecutionId)
    requires id in ledgers
    ensures var now := Recovered(ledgers, definitions, rows);
      && id in now && Unchanged(now, definitions, id) == Unchanged(ledgers, definitions, id)
      && Recovered(ledgers, definitions, rows + [id]) == AfterCheck(now, definitions, id)
  {
  }

  lemma StandingOne(ledgers: map<ExecutionId, Ledger>, definitions: map<nat, nat>, rows: seq<ExecutionId>,
    id: ExecutionId)
    ensures Standing(ledgers, definitions, rows + [id]) ==
      Standing(ledgers, definitions, rows) + if Unchanged(ledgers, definitions, id) then [id] else []
  {
    assert (rows + [id])[..|rows|] == rows;
  }

  /** One more row of the scan. */
  lemma NextRow(ledgers: map<ExecutionId, Ledger>, definitions: map<nat, nat>, rows: seq<ExecutionId>, i: nat)
    requires i < |rows| && rows[i] in ledgers
    ensures var now, id := Recovered(ledgers, definitions, rows[..i]), rows[i];
      && id in now && Recovered(ledgers, definitions, rows[..i + 1]) == AfterCheck(now, definitions, id)
      && Standing(ledgers, definitions, rows[..i + 1]) ==
           Standing(ledgers, definitions, rows[..i]) + if Unchanged(now, definitions, id) then [id] else []
  {
    assert rows[..i + 1] == rows[..i] + [rows[i]];
    RecoveredOne(ledgers, definitions, rows[..i], rows[i]);
    StandingOne(ledgers, definitions, rows[..i], rows[i]);
  }

  lemma {:induction false} ScanIsRecoverable(order: seq<ExecutionId>, ledgers: map<ExecutionId, Ledger>, now: int)
    ensures forall id :: id in Scan(order, ledgers, now) <==>
      && id in order && id in ledgers
      && var e := ledgers[id].execution;
         e.status == Pending || (e.status == Running && (e.expires == None || e.expires.value < now))
  {
    if order != [] {
      ScanIsRecoverable(order[1..], ledgers, now);
      assert order == [order[0]] + order[1..];
    }
  }

  /** The scan answers in creation order: a row created last comes last, if it is recoverable. */
  lemma {:induction false} ScanFollowsCreation(order: seq<ExecutionId>, ledgers: map<ExecutionId, Ledger>, now: int,
    id: ExecutionId)
    ensures Scan(order + [id], ledgers, now) == Scan(order, ledgers, now) +
      if id in ledgers && (ledgers[id].execution.status == Pending
                           || (ledgers[id].execution.status == Running
                               && (ledgers[id].execution.expires == None || ledgers[id].execution.expires.value < now)))
      then [id] else []
  {
    if order != [] {
      assert (order + [id])[1..] == order[1..] + [id];
      ScanFollowsCreation(order[1..], ledgers, now, id);
    } else {
      assert (order + [id])[1..] == [];
    }
  }

  /** What one recovery scan does: it takes up to the limit of the recoverable rows, and all of
      them if they are fewer, answers those whose definition stands and marks the others. */
  lemma RecoveryMeans(order: seq<ExecutionId>, ledgers: map<ExecutionId, Ledger>, definitions: map<nat, nat>,
    requested: int, now: int, id: ExecutionId)
    requires id in ledgers
    ensures var rows := Take(Scan(order, ledgers, now), Limit(requested));
      var after := Recovered(ledgers, definitions, rows);
      var e := ledgers[id].execution;
      var due := e.status == Pending || (e.status == Running && (e.expires == None || e.expires.value < now));
      var stands := id.workflow in definitions && definitions[id.workflow] == e.definition;
      && |rows| <= Limit(requested) && rows <= Scan(order, ledgers, now)
      && (id in rows ==> id in order && due)
      && (|rows| < Limit(requested) && id in order && due ==> id in rows)
      && (id in Standing(ledgers, definitions, rows) <==> id in rows && stands)
      && after.Keys == ledgers.Keys
      && after[id] == if id in rows && !stands then
                        Ledger(e.(status := Ended(NeedsReview), reason := Some("definition_changed")), ledgers[id].steps)
                      else ledgers[id]
  {
    var rows := Take(Scan(order, ledgers, now), Limit(requested));
    ScanIsRecoverable(order, ledgers, now);
    StandingMembers(ledgers, definitions, rows, id);
    assert forall k :: k in rows ==> k in Scan(order, ledgers, now);
  }
}
