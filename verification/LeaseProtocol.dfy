/** Any number of workers on one execution: claims, renewals, step writes, local actions,
    finishes and the recovery scan, interleaved at every statement, commit, rollback and
    crash. Each request is one transaction; its first locking statement takes the execution
    row and keeps it until commit or rollback, and statement time is fixed before any wait. */
module LeaseProtocol {
  import opened Basics
  import opened WorkflowExecution

  type WorkerId = nat

  datatype Call =
    | ClaimCall(owner: Owner, seconds: int)
    | RenewCall(lease: Lease, seconds: int)
    | EndCall(lease: Lease, how: Terminal)
    | BeginExternalCall(lease: Lease, node: Node)
    | FinishStepCall(lease: Lease, node: Node, how: Terminal, result: Option<nat>)
    | RunLocalCall(lease: Lease, node: Node)
    | RecoverCall   // the scan, on a row whose definition has changed

  /** What a committed transaction did under its lease; `at` is the time of its last lease check,
      `until` the expiry it wrote. */
  datatype Event =
    | Claims(lease: Lease, at: int, until: int)
    | Renews(lease: Lease, at: int, until: int)
    | Ends(lease: Lease, at: int, how: Terminal)
    | Dispatches(lease: Lease, at: int, node: Node)
    | FinishesStep(lease: Lease, at: int, node: Node, how: Terminal, result: Option<nat>)
    | Acts(lease: Lease, at: int, node: Node, answer: Answer)

  datatype Pc =
    | Opened                      // the transaction has its snapshot
    | Asking                      // the first locking statement has started and may wait
    | Acting                      // holds the row lock and a claimed step; about to run the action
    | Completing(answer: Answer)  // the action has answered; about to finish the step
    | Marking                     // about to mark the external step as dispatching
    | Ready                       // about to commit
    | Committed
    | Aborted

  /** `snap` is what non-locking reads see, `now` the time of the first locking statement,
      `event` what the commit will have done, `reply` the step the request answers with. */
  datatype Request = Request(
    call: Call, pc: Pc, snap: Ledger, now: int, event: Option<Event>, reply: Option<Step>)

  datatype Database = Database(
    ledger: Ledger,
    draft: Ledger,               // the uncommitted version, while the row is locked
    lock: Option<WorkerId>,
    clock: int,
    log: seq<Event>)

  datatype State = State(db: Database, requests: map<WorkerId, Request>)

  datatype Action =
    | Open(w: WorkerId, call: Call)
    | Ask(w: WorkerId)
    | Acquire(w: WorkerId)
    | Act(w: WorkerId, answer: Answer)
    | Complete(w: WorkerId)
    | Commit(w: WorkerId)
    | Abort(w: WorkerId)
    | Tick(w: WorkerId, delta: nat)

  function Initial(definition: nat): State {
    var l := Ledger(Execution(definition, Pending, None, 0, None, None), map[]);
    State(Database(l, l, None, 0, []), map[])
  }

  /** The row lock is taken and the uncommitted version becomes `draft`. */
  function Locking(db: Database, w: WorkerId, draft: Ledger): Database {
    db.(lock := Some(w), draft := draft)
  }

  function Released(db: Database, w: WorkerId): Database {
    if db.lock == Some(w) then db.(lock := None, draft := db.ledger) else db
  }

  /** The first locking statement, evaluated on the committed row once the lock is free. */
  function FirstStatement(db: Database, w: WorkerId, x: Request): (Database, Request) {
    var l := db.ledger;
    var refused := (Locking(db, w, l), x.(pc := Ready));
    var raised := (db, x.(pc := Aborted));
    match x.call
    case ClaimCall(owner, seconds) =>
      var e := Claim(l.execution, owner, seconds, x.now);
      if e.None? then refused else
      (Locking(db, w, l.(execution := e.value)),
       x.(pc := Ready, event := Some(Claims(Lease(owner, e.value.generation), x.now, x.now + LeaseSeconds(seconds)))))
    case RenewCall(lease, seconds) =>
      var e := Renew(l.execution, lease, seconds, x.now);
      if e.None? then refused else
      (Locking(db, w, l.(execution := e.value)),
       x.(pc := Ready, event := Some(Renews(lease, x.now, x.now + LeaseSeconds(seconds)))))
    case EndCall(lease, how) =>
      var e := End(l.execution, lease, how, None, x.now);
      if e.None? then refused else
      (Locking(db, w, l.(execution := e.value)), x.(pc := Ready, event := Some(Ends(lease, x.now, how))))
    case BeginExternalCall(lease, node) =>
      var f := GetOrCreateStep(l, x.snap.steps, node, External, lease, x.now);
      if f.Raised? then raised else
      if f.value.step.status.Finished? then (Locking(db, w, f.value.ledger), x.(pc := Ready, reply := Some(f.value.step))) else
      (Locking(db, w, f.value.ledger), x.(pc := Marking))
    case FinishStepCall(lease, node, how, result) =>
      var t := FinishStep(l, node, lease, how, result, x.now);
      if t.Raised? then raised else
      (Locking(db, w, t.value), x.(pc := Ready, event := Some(FinishesStep(lease, x.now, node, how, result))))
    case RunLocalCall(lease, node) =>
      var f := GetOrCreateStep(l, x.snap.steps, node, FrappeAtomic, lease, x.now);
      if f.Raised? then raised else
      (match PlanLocal(f.value.step)
       case Run => (Locking(db, w, f.value.ledger), x.(pc := Acting))
       case Replay(step) => (Locking(db, w, f.value.ledger), x.(pc := Ready, reply := Some(step)))
       case Refuse(_) => raised)
    case RecoverCall =>
      (Locking(db, w, l.(execution := Mark(l.execution))), x.(pc := Ready))
  }

  /** The second lease check of a two-statement request, with its last write. */
  function LastStatement(db: Database, w: WorkerId, x: Request): (Database, Request) {
    match x.call
    case BeginExternalCall(lease, node) =>
      if !Live(db.draft.execution, lease, db.clock) then (Released(db, w), x.(pc := Aborted)) else
      var answer := ReadBack(db.draft, x.snap.steps, node);
      if answer.None? then (Released(db, w), x.(pc := Aborted)) else
      var (l, confirmed) := Dispatch(db.draft, node);
      (Locking(db, w, l),
       x.(pc := Ready, event := if confirmed then Some(Dispatches(lease, db.clock, node)) else None, reply := answer))
    case RunLocalCall(lease, node) =>
      if !x.pc.Completing? then (db, x) else
      var answer := x.pc.answer;
      var t := FinishStep(db.draft, node, lease, HowOf(answer), Some(answer.body), db.clock);
      if t.Raised? then (Released(db, w), x.(pc := Aborted)) else
      (Locking(db, w, t.value),
       x.(pc := Ready, event := Some(Acts(lease, db.clock, node, answer)),
          reply := Some(Step(FrappeAtomic, Finished(HowOf(answer)), Some(answer.body)))))
    case _ => (db, x)
  }

  /** One step of one request. A step whose guard does not hold changes nothing. */
  function Move(db: Database, x: Request, a: Action): (Database, Request) {
    match a
    case Open(_, _) => (db, x)
    case Ask(_) =>
      if !x.pc.Opened? then (db, x) else
      if x.call.RecoverCall? && !Recoverable(x.snap.execution, db.clock) then (db, x.(pc := Aborted)) else
      (db, x.(pc := Asking, now := db.clock))
    case Acquire(w) =>
      if !x.pc.Asking? || db.lock.Some? then (db, x) else FirstStatement(db, w, x)
    case Act(_, answer) =>
      if !x.pc.Acting? then (db, x) else (db, x.(pc := Completing(answer)))
    case Complete(w) =>
      if !x.pc.Marking? && !x.pc.Completing? then (db, x) else LastStatement(db, w, x)
    case Commit(w) =>
      if !x.pc.Ready? then (db, x) else
      (db.(ledger := db.draft, lock := None,
           log := if x.event.Some? then db.log + [x.event.value] else db.log),
       x.(pc := Committed))
    case Abort(w) =>
      if x.pc.Committed? || x.pc.Aborted? then (db, x) else (Released(db, w), x.(pc := Aborted))
    case Tick(_, delta) => (db.(clock := db.clock + delta), x)
  }

  function Apply(s: State, a: Action): State {
    if a.w in s.requests then
      var (db, x) := Move(s.db, s.requests[a.w], a);
      State(db, s.requests[a.w := x])
    else if a.Open? then
      s.(requests := s.requests[a.w := Request(a.call, Opened, s.db.ledger, s.db.clock, None, None)])
    else
      s
  }

  function Execute(definition: nat, schedule: seq<Action>): State {
    if schedule == [] then Initial(definition)
    else Apply(Execute(definition, schedule[..|schedule| - 1]), schedule[|schedule| - 1])
  }

  // ----- the invariant -----

  /** The lease of the last claim in the log. */
  function LastClaim(log: seq<Event>): Option<Lease> {
    if log == [] then None
    else if log[|log| - 1].Claims? then Some(log[|log| - 1].lease)
    else LastClaim(log[..|log| - 1])
  }

  function GenerationOf(lease: Option<Lease>): nat {
    if lease.Some? then lease.value.generation else 0
  }

  /** `event` may follow `log`: a claim takes the next generation, anything else carries the
      lease of the last claim. */
  ghost predicate Follows(log: seq<Event>, event: Event) {
    if event.Claims? then event.lease.generation == GenerationOf(LastClaim(log)) + 1
    else LastClaim(log) == Some(event.lease)
  }

  ghost predicate Fenced(log: seq<Event>) {
    forall i :: 0 <= i < |log| ==> Follows(log[..i], log[i])
  }

  /** The expiry in force after the log: what the last claim, renewal or end wrote. */
  function LeaseUntil(log: seq<Event>): Option<int> {
    if log == [] then None
    else match log[|log| - 1]
      case Claims(_, _, until) => Some(until)
      case Renews(_, _, until) => Some(until)
      case Ends(_, at, _) => Some(at)
      case _ => LeaseUntil(log[..|log| - 1])
  }

  predicate Over(log: seq<Event>) {
    log != [] && log[|log| - 1].Ends?
  }

  /** A claim comes after the expiry in force, anything else not later than it, and nothing
      after the end. */
  ghost predicate Timely(log: seq<Event>, event: Event) {
    && !Over(log)
    && (event.Claims? && LeaseUntil(log).Some? ==> LeaseUntil(log).value < event.at)
    && (!event.Claims? ==> LeaseUntil(log).Some? && event.at <= LeaseUntil(log).value)
    && (event.Claims? || event.Renews? ==> event.at + 10 <= event.until <= event.at + 300)
  }

  ghost predicate Timed(log: seq<Event>) {
    forall i :: 0 <= i < |log| ==> Timely(log[..i], log[i])
  }

  /** The row has the expiry in force, and an ended one the outcome of the end, if no recovery
      scan has marked it. */
  ghost predicate RowIsTimed(e: Execution, log: seq<Event>) {
    && e.expires == LeaseUntil(log)
    && (e.status == Pending ==> e.expires == None)
    && (Over(log) ==> e.status.Ended?)
    && (e.status.Ended? ==>
          || (Over(log) && e.status == Ended(log[|log| - 1].how))
          || (e.status == Ended(NeedsReview) && e.reason == Some("definition_changed")))
  }

  /** What an event does to the step rows. */
  function StepsAfter(steps: map<Node, Step>, event: Event): map<Node, Step> {
    match event
    case Acts(_, _, n, answer) =>
      steps[n := Step(FrappeAtomic, Finished(if answer.failed then Failed else Succeeded), Some(answer.body))]
    case Dispatches(_, _, n) => steps[n := Step(External, Dispatching, None)]
    case FinishesStep(_, _, n, how, result) => steps[n := Step(External, Finished(how), result)]
    case _ => steps
  }

  /** The step rows as the log tells them. */
  function Replay(log: seq<Event>): map<Node, Step> {
    if log == [] then map[] else StepsAfter(Replay(log[..|log| - 1]), log[|log| - 1])
  }

  /** The row holds the lease of the last claim. */
  ghost predicate RowHoldsLastClaim(e: Execution, log: seq<Event>) {
    && e.generation == GenerationOf(LastClaim(log))
    && (LastClaim(log).Some? ==> e.owner == Some(LastClaim(log).value.owner))
    && (LastClaim(log).None? ==> e.owner == None && e.status != Running)
  }

  /** A committed step is never merely claimed, and an atomic one is already finished. */
  ghost predicate StepsOk(steps: map<Node, Step>) {
    forall n :: n in steps ==>
      && steps[n].status != Claimed && (steps[n].kind == FrappeAtomic ==> steps[n].status.Finished?)
      && (steps[n].status == Dispatching ==> steps[n].result == None)
  }

  ghost predicate StepGrew(before: Step, after: Step) {
    before == after || (before.kind == after.kind && before.status == Dispatching && after.status.Finished?)
  }

  ghost predicate StepsGrew(before: map<Node, Step>, after: map<Node, Step>) {
    forall n :: n in before ==> n in after && StepGrew(before[n], after[n])
  }

  predicate Recorded(steps: map<Node, Step>, n: Node, answer: Answer) {
    n in steps && steps[n] == Step(FrappeAtomic, Finished(HowOf(answer)), Some(answer.body))
  }

  /** What an effect in the log says about the step row. */
  ghost predicate EffectRecorded(event: Event, steps: map<Node, Step>) {
    match event
    case Acts(_, _, n, answer) => Recorded(steps, n, answer)
    case Dispatches(_, _, n) => n in steps && steps[n].kind == External
    case FinishesStep(_, _, n, how, result) => n in steps && steps[n] == Step(External, Finished(how), result)
    case _ => true
  }

  ghost predicate SameEffect(a: Event, b: Event) {
    || (a.Acts? && b.Acts? && a.node == b.node)
    || (a.Dispatches? && b.Dispatches? && a.node == b.node)
    || (a.FinishesStep? && b.FinishesStep? && a.node == b.node)
  }

  ghost predicate EffectsOk(log: seq<Event>, steps: map<Node, Step>) {
    && (forall i :: 0 <= i < |log| ==> EffectRecorded(log[i], steps))
    && (forall i, j :: 0 <= i < j < |log| ==> !SameEffect(log[i], log[j]))
  }

  ghost predicate DatabaseOk(db: Database) {
    && Fenced(db.log)
    && RowHoldsLastClaim(db.ledger.execution, db.log)
    && Timed(db.log) && RowIsTimed(db.ledger.execution, db.log)
    && db.ledger.steps == Replay(db.log)
    && StepsOk(db.ledger.steps)
    && EffectsOk(db.log, db.ledger.steps)
    && (db.lock.None? ==> db.draft == db.ledger)
  }

  /** The uncommitted step write of a request that is still between its two statements. */
  ghost predicate MidWay(db: Database, w: WorkerId, lease: Lease, node: Node, kind: EffectKind) {
    && db.lock == Some(w)
    && db.draft.execution == db.ledger.execution
    && HeldBy(db.ledger.execution, lease) && db.ledger.execution.status == Running
    && (|| (node !in db.ledger.steps && db.draft.steps == db.ledger.steps[node := Step(kind, Claimed, None)])
        || (kind == External && node in db.ledger.steps && db.draft.steps == db.ledger.steps))
  }

  /** The event may happen to the row, and says what becomes of it. */
  ghost predicate EventOk(was: Ledger, next: Ledger, event: Event) {
    match event
    case Claims(lease, at, until) =>
      && !was.execution.status.Ended? && (was.execution.expires.Some? ==> was.execution.expires.value < at)
      && lease.generation == was.execution.generation + 1
      && next.execution.status == Running && HeldBy(next.execution, lease)
      && next.execution.expires == Some(until) && at + 10 <= until <= at + 300
    case Renews(lease, at, until) =>
      && Live(was.execution, lease, at) && next.execution == was.execution.(expires := Some(until))
      && at + 10 <= until <= at + 300
    case Ends(lease, at, how) =>
      && Live(was.execution, lease, at) && HeldBy(next.execution, lease)
      && next.execution.status == Ended(how) && next.execution.expires == Some(at)
    case FinishesStep(lease, at, n, _, _) =>
      && Live(was.execution, lease, at) && next.execution == was.execution
      && n in was.steps && was.steps[n] == Step(External, Dispatching, None)
    case Dispatches(lease, at, n) =>
      Live(was.execution, lease, at) && next.execution == was.execution && n !in was.steps
    case Acts(lease, at, n, _) =>
      Live(was.execution, lease, at) && next.execution == was.execution && n !in was.steps
  }

  /** What the commit of a ready request will do is described by its event. */
  ghost predicate ReadyOk(db: Database, w: WorkerId, x: Request) {
    var was, next := db.ledger, db.draft;
    && db.lock == Some(w)
    && StepsOk(next.steps) && StepsGrew(was.steps, next.steps)
    && (next.execution == was.execution || next.steps == was.steps)
    && match x.event
       case None =>
         next.steps == was.steps && next.execution == if x.call.RecoverCall? then Mark(was.execution) else was.execution
       case Some(e) => next.steps == StepsAfter(was.steps, e) && EventOk(was, next, e)
  }

  ghost predicate RequestOk(db: Database, w: WorkerId, x: Request) {
    && StepsOk(x.snap.steps) && StepsGrew(x.snap.steps, db.ledger.steps)
    && (x.call.RecoverCall? ==> x.event == None)
    && (x.call.RecoverCall? && (x.pc.Asking? || x.pc.Ready?) ==> Recoverable(x.snap.execution, x.now))
    && (db.lock == Some(w) ==> x.pc.Acting? || x.pc.Completing? || x.pc.Marking? || x.pc.Ready?)
    && match x.pc
       case Opened => x.event == None && x.reply == None
       case Asking => x.event == None && x.reply == None
       case Acting => x.call.RunLocalCall? && x.event == None && MidWay(db, w, x.call.lease, x.call.node, FrappeAtomic)
       case Completing(_) => x.call.RunLocalCall? && x.event == None && MidWay(db, w, x.call.lease, x.call.node, FrappeAtomic)
       case Marking => x.call.BeginExternalCall? && x.event == None && MidWay(db, w, x.call.lease, x.call.node, External)
       case Ready => ReadyOk(db, w, x)
       case Committed => true
       case Aborted => true
  }

  ghost predicate Inv(s: State) {
    && DatabaseOk(s.db)
    && (s.db.lock.Some? ==> s.db.lock.value in s.requests)
    && forall w :: w in s.requests ==> RequestOk(s.db, w, s.requests[w])
  }

  // ----- one step -----

  ghost predicate AboutToAsk(db: Database, w: WorkerId, x: Request) {
    DatabaseOk(db) && RequestOk(db, w, x) && x.pc.Asking? && db.lock.None?
  }

  ghost predicate MoverOk(db: Database, w: WorkerId, moved: (Database, Request)) {
    DatabaseOk(moved.0) && RequestOk(moved.0, w, moved.1) && moved.0.ledger == db.ledger
  }

  lemma LeaseStatementOk(db: Database, x: Request, w: WorkerId)
    requires AboutToAsk(db, w, x) && (x.call.ClaimCall? || x.call.RenewCall?)
    ensures MoverOk(db, w, FirstStatement(db, w, x))
  {
    hide Fenced, EffectsOk, RowHoldsLastClaim, Timed, Replay;
  }

  lemma EndStatementOk(db: Database, x: Request, w: WorkerId)
    requires AboutToAsk(db, w, x) && (x.call.EndCall? || x.call.RecoverCall?)
    ensures MoverOk(db, w, FirstStatement(db, w, x))
  {
    hide Fenced, EffectsOk, RowHoldsLastClaim, Timed, RowIsTimed, Replay;
  }

  lemma FinishStatementOk(db: Database, x: Request, w: WorkerId)
    requires AboutToAsk(db, w, x) && x.call.FinishStepCall?
    ensures MoverOk(db, w, FirstStatement(db, w, x))
  {
    hide Fenced, EffectsOk, RowHoldsLastClaim, Timed, RowIsTimed, Replay;
  }

  lemma ExternalStatementOk(db: Database, x: Request, w: WorkerId)
    requires AboutToAsk(db, w, x) && x.call.BeginExternalCall?
    ensures MoverOk(db, w, FirstStatement(db, w, x))
  {
    hide Fenced, EffectsOk, RowHoldsLastClaim, Timed, RowIsTimed, Replay;
  }

  lemma LocalStatementOk(db: Database, x: Request, w: WorkerId)
    requires AboutToAsk(db, w, x) && x.call.RunLocalCall?
    ensures MoverOk(db, w, FirstStatement(db, w, x))
  {
    hide Fenced, EffectsOk, RowHoldsLastClaim, Timed, RowIsTimed, Replay;
  }

  lemma MarkStatementOk(db: Database, x: Request, w: WorkerId)
    requires DatabaseOk(db) && RequestOk(db, w, x) && x.pc.Marking?
    ensures MoverOk(db, w, LastStatement(db, w, x))
  {
    hide Fenced, EffectsOk, RowHoldsLastClaim, Timed, RowIsTimed, Replay;
  }

  lemma CompleteStatementOk(db: Database, x: Request, w: WorkerId)
    requires DatabaseOk(db) && RequestOk(db, w, x) && x.pc.Completing?
    ensures MoverOk(db, w, LastStatement(db, w, x))
  {
    hide Fenced, EffectsOk, RowHoldsLastClaim, Timed, RowIsTimed, Replay;
    var node, answer := x.call.node, x.pc.answer;
    var t := FinishStep(db.draft, node, x.call.lease, HowOf(answer), Some(answer.body), db.clock);
    if t.Ok? {
      assert t.value.execution == db.ledger.execution;
      assert t.value.steps == db.ledger.steps[node := Step(FrappeAtomic, Finished(HowOf(answer)), Some(answer.body))];
    }
  }

  lemma LastClaimOfMore(log: seq<Event>, e: Event)
    ensures LastClaim(log + [e]) == if e.Claims? then Some(e.lease) else LastClaim(log)
  {
    assert (log + [e])[..|log|] == log;
  }

  lemma FencedMore(log: seq<Event>, e: Event)
    requires Fenced(log) && Follows(log, e)
    ensures Fenced(log + [e])
  {
    forall i | 0 <= i < |log| + 1 ensures Follows((log + [e])[..i], (log + [e])[i]) {
      assert (log + [e])[..i] == log[..i];
    }
    assert log[..|log|] == log;
  }

  lemma TimedMore(log: seq<Event>, e: Event)
    requires Timed(log) && Timely(log, e)
    ensures Timed(log + [e])
  {
    forall i | 0 <= i < |log| + 1 ensures Timely((log + [e])[..i], (log + [e])[i]) {
      assert (log + [e])[..i] == log[..i];
    }
    assert log[..|log|] == log;
  }

  lemma LogOfMore(log: seq<Event>, e: Event)
    ensures Replay(log + [e]) == StepsAfter(Replay(log), e)
    ensures LeaseUntil(log + [e]) ==
      if e.Claims? || e.Renews? then Some(e.until) else if e.Ends? then Some(e.at) else LeaseUntil(log)
    ensures Over(log + [e]) <==> e.Ends?
  {
    assert (log + [e])[..|log|] == log;
  }

  lemma EffectStays(e: Event, before: map<Node, Step>, after: map<Node, Step>)
    requires EffectRecorded(e, before) && StepsGrew(before, after)
    ensures EffectRecorded(e, after)
  {
  }

  lemma CommitFences(db: Database, x: Request, w: WorkerId)
    requires DatabaseOk(db) && ReadyOk(db, w, x) && x.event.Some?
    ensures Fenced(db.log + [x.event.value])
    ensures RowHoldsLastClaim(db.draft.execution, db.log + [x.event.value])
  {
    LastClaimOfMore(db.log, x.event.value);
    FencedMore(db.log, x.event.value);
  }

  lemma CommitTimes(db: Database, x: Request, w: WorkerId)
    requires DatabaseOk(db) && ReadyOk(db, w, x) && x.event.Some?
    ensures Timed(db.log + [x.event.value])
    ensures RowIsTimed(db.draft.execution, db.log + [x.event.value])
    ensures db.draft.steps == Replay(db.log + [x.event.value])
  {
    hide Fenced, EffectsOk, StepsOk;
    LogOfMore(db.log, x.event.value);
    TimedMore(db.log, x.event.value);
  }

  lemma OldEffectsStay(db: Database, x: Request, w: WorkerId)
    requires DatabaseOk(db) && ReadyOk(db, w, x)
    ensures EffectsOk(db.log, db.draft.steps)
  {
    forall i | 0 <= i < |db.log| ensures EffectRecorded(db.log[i], db.draft.steps) {
      EffectStays(db.log[i], db.ledger.steps, db.draft.steps);
    }
  }

  /** A committed effect is new: its step row did not exist, so no earlier effect names it. */
  lemma CommitRecords(db: Database, x: Request, w: WorkerId)
    requires DatabaseOk(db) && ReadyOk(db, w, x) && x.event.Some?
    ensures EffectsOk(db.log + [x.event.value], db.draft.steps)
  {
    OldEffectsStay(db, x, w);
    var e, log := x.event.value, db.log + [x.event.value];
    assert EffectRecorded(e, db.draft.steps);
    forall i | 0 <= i < |db.log| ensures !SameEffect(db.log[i], e) {
      assert EffectRecorded(db.log[i], db.ledger.steps);
    }
  }

  /** What a step may do to the committed rows. */
  ghost predicate RowsGrew(before: Ledger, after: Ledger) {
    StepsGrew(before.steps, after.steps) && (before.execution.status.Ended? ==> after.execution.status.Ended?)
  }

  ghost predicate Moved(db: Database, x: Request, a: Action) {
    var (db', x') := Move(db, x, a);
    DatabaseOk(db') && RequestOk(db', a.w, x') && RowsGrew(db.ledger, db'.ledger)
  }

  lemma CommitOk(db: Database, x: Request, a: Action)
    requires DatabaseOk(db) && RequestOk(db, a.w, x) && x.pc.Ready? && a.Commit?
    ensures Moved(db, x, a)
  {
    OldEffectsStay(db, x, a.w);
    if x.event.Some? {
      CommitFences(db, x, a.w);
      CommitTimes(db, x, a.w);
      CommitRecords(db, x, a.w);
    }
  }

  lemma QuietStepOk(db: Database, x: Request, a: Action)
    requires DatabaseOk(db) && RequestOk(db, a.w, x) && !a.Acquire? && !a.Complete? && !a.Commit?
    ensures Moved(db, x, a)
  {
    hide Fenced, EffectsOk, RowHoldsLastClaim, Timed, RowIsTimed, Replay;
  }

  lemma StatementOk(db: Database, x: Request, a: Action)
    requires DatabaseOk(db) && RequestOk(db, a.w, x) && (a.Acquire? || a.Complete?)
    ensures Moved(db, x, a)
  {
    hide DatabaseOk, FirstStatement, LastStatement;
    if a.Acquire? && x.pc.Asking? && db.lock.None? {
      match x.call {
        case RunLocalCall(_, _) => LocalStatementOk(db, x, a.w);
        case BeginExternalCall(_, _) => ExternalStatementOk(db, x, a.w);
        case FinishStepCall(_, _, _, _) => FinishStatementOk(db, x, a.w);
        case EndCall(_, _) => EndStatementOk(db, x, a.w);
        case RecoverCall => EndStatementOk(db, x, a.w);
        case _ => LeaseStatementOk(db, x, a.w);
      }
      assert MoverOk(db, a.w, Move(db, x, a));
    } else if a.Complete? && (x.pc.Marking? || x.pc.Completing?) {
      if x.pc.Marking? {
        MarkStatementOk(db, x, a.w);
      } else {
        CompleteStatementOk(db, x, a.w);
      }
      assert MoverOk(db, a.w, Move(db, x, a));
    } else {
      assert Move(db, x, a) == (db, x);
    }
  }

  lemma MoverStaysOk(db: Database, x: Request, a: Action)
    requires DatabaseOk(db) && RequestOk(db, a.w, x)
    ensures Moved(db, x, a)
  {
    if a.Acquire? || a.Complete? {
      StatementOk(db, x, a);
    } else if a.Commit? && x.pc.Ready? {
      CommitOk(db, x, a);
    } else if a.Commit? {
      assert Move(db, x, a) == (db, x);
    } else {
      QuietStepOk(db, x, a);
    }
  }

  lemma OtherStaysOk(db: Database, x: Request, a: Action, v: WorkerId, y: Request)
    requires DatabaseOk(db) && RequestOk(db, a.w, x)
    requires v != a.w && RequestOk(db, v, y)
    requires RowsGrew(db.ledger, Move(db, x, a).0.ledger)
    ensures RequestOk(Move(db, x, a).0, v, y)
  {
  }

  lemma BeginStep(s: State, a: Action)
    requires Inv(s) && a.w !in s.requests
    ensures Inv(Apply(s, a))
  {
    if a.Open? {
      assert RequestOk(s.db, a.w, Request(a.call, Opened, s.db.ledger, s.db.clock, None, None));
    }
  }

  lemma OnlyTheMoverLocks(db: Database, x: Request, a: Action)
    requires RequestOk(db, a.w, x)
    ensures Move(db, x, a).0.lock == None || Move(db, x, a).0.lock == Some(a.w) || Move(db, x, a).0.lock == db.lock
  {
  }

  lemma Assemble(s: State, w: WorkerId, db: Database, x: Request)
    requires Inv(s) && w in s.requests && DatabaseOk(db) && RequestOk(db, w, x)
    requires db.lock == None || db.lock == Some(w) || db.lock == s.db.lock
    requires forall v :: v in s.requests && v != w ==> RequestOk(db, v, s.requests[v])
    ensures Inv(State(db, s.requests[w := x]))
  {
  }

  lemma InvStep(s: State, a: Action)
    requires Inv(s)
    ensures Inv(Apply(s, a)) && RowsGrew(s.db.ledger, Apply(s, a).db.ledger)
  {
    if a.w !in s.requests {
      BeginStep(s, a);
    } else {
      var x := s.requests[a.w];
      MoverStaysOk(s.db, x, a);
      OnlyTheMoverLocks(s.db, x, a);
      forall v | v in s.requests && v != a.w ensures RequestOk(Move(s.db, x, a).0, v, s.requests[v]) {
        OtherStaysOk(s.db, x, a, v, s.requests[v]);
      }
      Assemble(s, a.w, Move(s.db, x, a).0, Move(s.db, x, a).1);
    }
  }

  lemma {:induction false} InvAlways(definition: nat, schedule: seq<Action>)
    ensures Inv(Execute(definition, schedule))
  {
    if schedule != [] {
      var n := |schedule| - 1;
      InvAlways(definition, schedule[..n]);
      InvStep(Execute(definition, schedule[..n]), schedule[n]);
    }
  }

  // ----- what holds over every schedule -----

  lemma {:induction false} NoneAboveLastClaim(log: seq<Event>, i: nat)
    requires Fenced(log) && i < |log|
    ensures LastClaim(log).Some? && log[i].lease.generation <= LastClaim(log).value.generation
    ensures log[i].lease.generation == LastClaim(log).value.generation ==> log[i].lease == LastClaim(log).value
  {
    var n := |log| - 1;
    assert Follows(log[..n], log[n]);
    if i < n {
      assert Fenced(log[..n]) by {
        forall k | 0 <= k < n ensures Follows(log[..n][..k], log[..n][k]) {
          assert log[..n][..k] == log[..k];
        }
      }
      NoneAboveLastClaim(log[..n], i);
    }
  }

  /** Fencing. In the order of commits, generations never go down, every claim raises them,
      and one generation belongs to one owner: once a later claim has committed, no renewal,
      step write, action or finish of an older lease ever commits. */
  lemma LeasesAreFenced(definition: nat, schedule: seq<Action>, i: nat, j: nat)
    requires i < j < |Execute(definition, schedule).db.log|
    ensures var log := Execute(definition, schedule).db.log;
      && log[i].lease.generation <= log[j].lease.generation
      && (log[j].Claims? ==> log[i].lease.generation < log[j].lease.generation)
      && (log[i].lease.generation == log[j].lease.generation ==> log[i].lease == log[j].lease)
  {
    InvAlways(definition, schedule);
    var log := Execute(definition, schedule).db.log;
    assert Follows(log[..j], log[j]);
    assert Fenced(log[..j]) by {
      forall k | 0 <= k < j ensures Follows(log[..j][..k], log[..j][k]) {
        assert log[..j][..k] == log[..k];
      }
    }
    NoneAboveLastClaim(log[..j], i);
  }

  /** A lease that a later claim has replaced passes the lease check at no time at all. */
  lemma ReplacedLeaseIsDead(definition: nat, schedule: seq<Action>, i: nat, j: nat, now: int)
    requires i < j < |Execute(definition, schedule).db.log|
    requires Execute(definition, schedule).db.log[j].Claims?
    ensures var db := Execute(definition, schedule).db; !Live(db.ledger.execution, db.log[i].lease, now)
  {
    LeasesAreFenced(definition, schedule, i, j);
    InvAlways(definition, schedule);
    NoneAboveLastClaim(Execute(definition, schedule).db.log, j);
  }

  /** The business action of a node is committed at most once, and so are the dispatch and the
      finish of an external one. */
  lemma EffectsCommitOnce(definition: nat, schedule: seq<Action>, i: nat, j: nat)
    requires i < j < |Execute(definition, schedule).db.log|
    ensures var log := Execute(definition, schedule).db.log;
      && (log[i].Acts? && log[j].Acts? ==> log[i].node != log[j].node)
      && (log[i].Dispatches? && log[j].Dispatches? ==> log[i].node != log[j].node)
      && (log[i].FinishesStep? && log[j].FinishesStep? ==> log[i].node != log[j].node)
      && (log[i].Acts? && log[j].Dispatches? ==> log[i].node != log[j].node)
      && (log[i].Dispatches? && log[j].Acts? ==> log[i].node != log[j].node)
  {
    InvAlways(definition, schedule);
    var db := Execute(definition, schedule).db;
    assert EffectRecorded(db.log[i], db.ledger.steps) && EffectRecorded(db.log[j], db.ledger.steps);
    assert !SameEffect(db.log[i], db.log[j]);
  }

  /** A committed action is in the step row with its own answer, failed or succeeded, and every
      committed frappe_atomic step is terminal. */
  lemma ActionsAreRecorded(definition: nat, schedule: seq<Action>, i: nat, n: Node)
    ensures var db := Execute(definition, schedule).db;
      && (i < |db.log| && db.log[i].Acts? ==>
            var node, answer := db.log[i].node, db.log[i].answer;
            && node in db.ledger.steps && db.ledger.steps[node].kind == FrappeAtomic
            && db.ledger.steps[node].status == (if answer.failed then Finished(Failed) else Finished(Succeeded))
            && db.ledger.steps[node].result == Some(answer.body))
      && (n in db.ledger.steps && db.ledger.steps[n].kind == FrappeAtomic ==> db.ledger.steps[n].status.Finished?)
  {
    InvAlways(definition, schedule);
    var db := Execute(definition, schedule).db;
    if i < |db.log| {
      assert EffectRecorded(db.log[i], db.ledger.steps);
    }
  }

  /** A call that finished a step has its status and result in the row for good. */
  lemma FinishesAreRecorded(definition: nat, schedule: seq<Action>, i: nat)
    requires i < |Execute(definition, schedule).db.log| && Execute(definition, schedule).db.log[i].FinishesStep?
    ensures var db := Execute(definition, schedule).db;
      var node := db.log[i].node;
      && node in db.ledger.steps && db.ledger.steps[node].kind == External
      && db.ledger.steps[node].status == Finished(db.log[i].how) && db.ledger.steps[node].result == db.log[i].result
  {
    InvAlways(definition, schedule);
    var db := Execute(definition, schedule).db;
    assert EffectRecorded(db.log[i], db.ledger.steps);
  }

  /** The committed step rows are exactly what the log tells. */
  lemma StepsAreTheLog(definition: nat, schedule: seq<Action>)
    ensures Execute(definition, schedule).db.ledger.steps == Replay(Execute(definition, schedule).db.log)
  {
    InvAlways(definition, schedule);
  }

  /** Event `i` finished step `n` as `step` says. */
  predicate FinishedAs(log: seq<Event>, i: nat, n: Node, step: Step) {
    && i < |log| && log[i].FinishesStep? && log[i].node == n
    && step == Step(External, Finished(log[i].how), log[i].result)
  }

  ghost predicate Dispatched(log: seq<Event>, n: Node) {
    exists i :: 0 <= i < |log| && log[i].Dispatches? && log[i].node == n
  }

  lemma {:induction false} ExternalStepsInTheLog(log: seq<Event>, n: Node) returns (i: nat)
    requires n in Replay(log) && Replay(log)[n].kind == External
    ensures Replay(log)[n].status.Finished? ==> FinishedAs(log, i, n, Replay(log)[n])
    ensures !Replay(log)[n].status.Finished? ==>
      Replay(log)[n] == Step(External, Dispatching, None) && Dispatched(log, n)
  {
    var m := |log| - 1;
    i := m;
    if log[m].Dispatches? && log[m].node == n {
    } else if log[m].FinishesStep? && log[m].node == n {
    } else {
      i := ExternalStepsInTheLog(log[..m], n);
      if !Replay(log)[n].status.Finished? {
        var k :| 0 <= k < m && log[..m][k].Dispatches? && log[..m][k].node == n;
        assert log[k].Dispatches? && log[k].node == n;
      }
    }
  }

  /** An external step is finished by a call of `finish_step`, with the status and result of that
      call; before that it is dispatching without a result, and its dispatch has committed. */
  lemma ExternalStepsHaveTheirEvent(definition: nat, schedule: seq<Action>, n: Node) returns (i: nat)
    requires var db := Execute(definition, schedule).db; n in db.ledger.steps && db.ledger.steps[n].kind == External
    ensures var db := Execute(definition, schedule).db;
      if db.ledger.steps[n].status.Finished? then
        && i < |db.log| && db.log[i].FinishesStep? && db.log[i].node == n
        && db.ledger.steps[n].status == Finished(db.log[i].how) && db.ledger.steps[n].result == db.log[i].result
      else
        && db.ledger.steps[n].status == Dispatching && db.ledger.steps[n].result == None
        && exists k :: 0 <= k < |db.log| && db.log[k].Dispatches? && db.log[k].node == n
  {
    InvAlways(definition, schedule);
    var db := Execute(definition, schedule).db;
    i := ExternalStepsInTheLog(db.log, n);
    assert Dispatched(db.log, n) ==> exists k :: 0 <= k < |db.log| && db.log[k].Dispatches? && db.log[k].node == n;
  }

  lemma StepAfterEnd(s: State, a: Action, w: WorkerId)
    requires w in s.requests && (s.requests[w].pc.Committed? || s.requests[w].pc.Aborted?)
    ensures w in Apply(s, a).requests && Apply(s, a).requests[w] == s.requests[w]
  {
    hide FirstStatement, LastStatement;
  }

  /** A request that committed or was refused does nothing more, and its reply stands. */
  lemma {:induction false} EndIsFinal(definition: nat, schedule: seq<Action>, later: seq<Action>, w: WorkerId)
    requires var s := Execute(definition, schedule);
      w in s.requests && (s.requests[w].pc.Committed? || s.requests[w].pc.Aborted?)
    ensures var s, t := Execute(definition, schedule), Execute(definition, schedule + later);
      w in t.requests && t.requests[w] == s.requests[w]
  {
    if later == [] {
      assert schedule + later == schedule;
    } else {
      var whole, front := schedule + later, later[..|later| - 1];
      assert whole[..|whole| - 1] == schedule + front;
      EndIsFinal(definition, schedule, front, w);
      StepAfterEnd(Execute(definition, schedule + front), later[|later| - 1], w);
    }
  }

  /** A request may raise or die at any point before its end: it writes nothing, and its row lock is
      given back. */
  lemma DeathReleases(s: State, w: WorkerId)
    requires w in s.requests && !s.requests[w].pc.Committed? && !s.requests[w].pc.Aborted?
    ensures var t := Apply(s, Abort(w));
      && t.requests == s.requests[w := s.requests[w].(pc := Aborted)]
      && t.db.ledger == s.db.ledger && t.db.log == s.db.log && t.db.clock == s.db.clock
      && t.db.lock == (if s.db.lock == Some(w) then None else s.db.lock)
      && t.db.draft == (if s.db.lock == Some(w) then s.db.ledger else s.db.draft)
  {
  }

  // ----- leases in time -----

  /** The last claim or renewal up to an index that no other follows is the one in force. */
  lemma {:induction false} LastLeaseIsInForce(log: seq<Event>, i: nat, j: nat)
    requires Timed(log) && i < j <= |log| && (log[i].Claims? || log[i].Renews?)
    requires forall k :: i < k < j ==> !log[k].Claims? && !log[k].Renews?
    ensures LeaseUntil(log[..j]) == Some(log[i].until) || Over(log[..j])
    decreases j
  {
    assert log[..j][..j - 1] == log[..j - 1];
    if i < j - 1 && !log[j - 1].Ends? {
      assert Timely(log[..j - 1], log[j - 1]);
      LastLeaseIsInForce(log, i, j - 1);
    }
  }

  /** A lease holds until it expires: from a claim or renewal to the next one, everything that
      commits was checked no later than the expiry it wrote, and a claim only after it. */
  lemma LeaseHoldsUntilItExpires(definition: nat, schedule: seq<Action>, i: nat, j: nat)
    requires var log := Execute(definition, schedule).db.log;
      && i < j < |log| && (log[i].Claims? || log[i].Renews?)
      && forall k :: i < k < j ==> !log[k].Claims? && !log[k].Renews?
    ensures var log := Execute(definition, schedule).db.log;
      && log[i].at + 10 <= log[i].until <= log[i].at + 300
      && if log[j].Claims? then log[i].until < log[j].at else log[j].at <= log[i].until
  {
    InvAlways(definition, schedule);
    var log := Execute(definition, schedule).db.log;
    assert Timely(log[..i], log[i]) && Timely(log[..j], log[j]);
    LastLeaseIsInForce(log, i, j);
  }

  /** Nothing commits under any lease after the execution was ended. */
  lemma NothingAfterTheEnd(definition: nat, schedule: seq<Action>, i: nat)
    requires var log := Execute(definition, schedule).db.log; i < |log| && log[i].Ends?
    ensures i == |Execute(definition, schedule).db.log| - 1
  {
    InvAlways(definition, schedule);
    var log := Execute(definition, schedule).db.log;
    assert i + 1 < |log| ==> Timely(log[..i + 1], log[i + 1]);
  }

  /** An ended execution has the outcome its holder gave, or the mark of a recovery scan. */
  lemma OutcomeIsLogged(definition: nat, schedule: seq<Action>)
    requires Execute(definition, schedule).db.ledger.execution.status.Ended?
    ensures var db := Execute(definition, schedule).db;
      var e := db.ledger.execution;
      || (db.log != [] && db.log[|db.log| - 1].Ends? && e.status == Ended(db.log[|db.log| - 1].how))
      || (e.status == Ended(NeedsReview) && e.reason == Some("definition_changed"))
  {
    InvAlways(definition, schedule);
  }

  /** A claim takes the execution exactly when it is pending, or running without an expiry or
      past it: a live lease is not taken, and nothing is written then. */
  lemma LiveLeaseIsNotTaken(definition: nat, schedule: seq<Action>, w: WorkerId)
    requires var s := Execute(definition, schedule);
      w in s.requests && s.requests[w].pc.Asking? && s.requests[w].call.ClaimCall? && s.db.lock.None?
    ensures var s := Execute(definition, schedule);
      var x, e := s.requests[w], s.db.ledger.execution;
      var t := Apply(s, Acquire(w));
      && t.requests[w].pc == Ready
      && if e.status == Pending || (e.status == Running && (e.expires == None || e.expires.value < x.now)) then
           && t.requests[w].event.Some? && t.requests[w].event.value.Claims?
           && t.requests[w].event.value.lease == Lease(x.call.owner, e.generation + 1)
           && t.requests[w].event.value.at == x.now
           && t.db.draft.execution ==
                Execution(e.definition, Running, Some(x.call.owner), e.generation + 1,
                  Some(t.requests[w].event.value.until), e.reason)
           && t.db.draft.steps == s.db.ledger.steps
         else t.requests[w].event == None && t.db.draft == s.db.ledger
  {
    InvAlways(definition, schedule);
    assert RequestOk(Execute(definition, schedule).db, w, Execute(definition, schedule).requests[w]);
    hide Execute, DatabaseOk, ReadyOk, MidWay, StepsGrew;
  }

  /** A renewal, an end or a finished step takes place exactly under a live lease, and on a step that
      is there and not finished; otherwise nothing is written. */
  lemma OnlyTheHolderWrites(db: Database, x: Request, w: WorkerId)
    requires x.pc.Asking? && db.lock.None? && x.event.None? && (x.call.RenewCall? || x.call.EndCall? || x.call.FinishStepCall?)
    ensures var e, (db', x') := db.ledger.execution, Move(db, x, Acquire(w));
      var lease := x.call.lease;
      var live := e.status == Running && e.owner == Some(lease.owner) && e.generation == lease.generation
        && e.expires.Some? && x.now <= e.expires.value;
      && (x'.event.Some? <==>
            live && (x.call.FinishStepCall? ==>
              x.call.node in db.ledger.steps && !db.ledger.steps[x.call.node].status.Finished?))
      && (x'.event.None? ==> db'.draft == db.draft || db'.draft == db.ledger)
      && (x'.event.Some? ==>
            && x'.pc == Ready && x'.event.value.lease == lease && x'.event.value.at == x.now
            && match x.call
               case RenewCall(_, seconds) =>
                 db'.draft == db.ledger.(execution := e.(expires := Some(x.now + LeaseSeconds(seconds))))
               case EndCall(_, how) =>
                 && db'.draft.execution.status == Ended(how) && db'.draft.execution.expires == Some(x.now)
                 && db'.draft.steps == db.ledger.steps
               case FinishStepCall(_, node, how, result) =>
                 db'.draft == db.ledger.(steps :=
                   db.ledger.steps[node := Step(db.ledger.steps[node].kind, Finished(how), result)])
               case _ => true)
  {
  }

  lemma GrewTransitive(a: Ledger, b: Ledger, c: Ledger)
    requires RowsGrew(a, b) && RowsGrew(b, c)
    ensures RowsGrew(a, c)
  {
  }

  lemma ExecuteOne(definition: nat, schedule: seq<Action>, a: Action)
    ensures Execute(definition, schedule + [a]) == Apply(Execute(definition, schedule), a)
  {
    assert (schedule + [a])[..|schedule|] == schedule;
  }

  lemma StepGrows(definition: nat, schedule: seq<Action>, a: Action)
    ensures RowsGrew(Execute(definition, schedule).db.ledger, Execute(definition, schedule + [a]).db.ledger)
  {
    InvAlways(definition, schedule);
    ExecuteOne(definition, schedule, a);
    InvStep(Execute(definition, schedule), a);
  }

  lemma LastOfLater(schedule: seq<Action>, later: seq<Action>)
    requires later != []
    ensures schedule + later == schedule + later[..|later| - 1] + [later[|later| - 1]]
  {
  }

  /** Whatever is scheduled later, a terminal step keeps its status and result, a dispatching
      step can only finish, and a terminal execution stays terminal. */
  lemma {:induction false} RowsOnlyGrow(definition: nat, schedule: seq<Action>, later: seq<Action>)
    ensures RowsGrew(Execute(definition, schedule).db.ledger, Execute(definition, schedule + later).db.ledger)
  {
    if later == [] {
      assert schedule + later == schedule;
    } else {
      var front, last := later[..|later| - 1], later[|later| - 1];
      RowsOnlyGrow(definition, schedule, front);
      StepGrows(definition, schedule + front, last);
      LastOfLater(schedule, later);
      GrewTransitive(Execute(definition, schedule).db.ledger, Execute(definition, schedule + front).db.ledger,
        Execute(definition, schedule + later).db.ledger);
    }
  }

  /** A later call by a live lease holder for a recorded local step performs no action: it
      answers with the recorded step. */
  lemma RecordedStepIsReplayed(definition: nat, schedule: seq<Action>, w: WorkerId)
    requires var s := Execute(definition, schedule);
      && w in s.requests && s.requests[w].pc.Asking? && s.requests[w].call.RunLocalCall? && s.db.lock.None?
      && Live(s.db.ledger.execution, s.requests[w].call.lease, s.requests[w].now)
      && s.requests[w].call.node in s.db.ledger.steps
      && s.db.ledger.steps[s.requests[w].call.node].kind == FrappeAtomic
    ensures var s := Execute(definition, schedule);
      var t := Apply(s, Acquire(w));
      && t.requests[w].pc == Ready && t.requests[w].event == None
      && t.requests[w].reply == Some(s.db.ledger.steps[s.requests[w].call.node])
      && t.db.draft == s.db.ledger
  {
    hide Execute, Fenced, EffectsOk, RowHoldsLastClaim, ReadyOk, MidWay;
    InvAlways(definition, schedule);
    var s := Execute(definition, schedule);
    assert RequestOk(s.db, w, s.requests[w]);
  }

  /** A later call by a live lease holder for a finished external step dispatches nothing. It is
      answered as recorded exactly if its snapshot does not show the step still under way;
      otherwise it gets that older version. */
  lemma FinishedStepIsAnswered(definition: nat, schedule: seq<Action>, w: WorkerId)
    requires var s := Execute(definition, schedule);
      && w in s.requests && s.requests[w].pc.Asking? && s.requests[w].call.BeginExternalCall? && s.db.lock.None?
      && Live(s.db.ledger.execution, s.requests[w].call.lease, s.requests[w].now)
      && Live(s.db.ledger.execution, s.requests[w].call.lease, s.db.clock)
      && s.requests[w].call.node in s.db.ledger.steps
      && s.db.ledger.steps[s.requests[w].call.node].kind == External
      && s.db.ledger.steps[s.requests[w].call.node].status.Finished?
    ensures var s := Execute(definition, schedule);
      var t := Apply(Apply(s, Acquire(w)), Complete(w));
      var node, seen := s.requests[w].call.node, s.requests[w].snap.steps;
      && t.requests[w].pc == Ready && t.requests[w].event == None && t.db.draft == s.db.ledger
      && (t.requests[w].reply == Some(s.db.ledger.steps[node]) <==> (node in seen ==> seen[node].status.Finished?))
      && (node in seen ==> t.requests[w].reply == Some(seen[node]))
  {
    hide Execute, DatabaseOk, ReadyOk, MidWay, FirstStatement, LastStatement;
    InvAlways(definition, schedule);
    var s := Execute(definition, schedule);
    assert RequestOk(s.db, w, s.requests[w]);
    AcquiresFinished(s.db, w, s.requests[w]);
    var t := Apply(s, Acquire(w));
    if t.requests[w].pc.Marking? {
      CompletesFinished(t.db, w, t.requests[w]);
    }
  }

  lemma AcquiresFinished(db: Database, w: WorkerId, x: Request)
    requires x.call.BeginExternalCall? && Live(db.ledger.execution, x.call.lease, x.now)
    requires StepsGrew(x.snap.steps, db.ledger.steps) && x.call.node in db.ledger.steps
    requires db.ledger.steps[x.call.node].kind == External && db.ledger.steps[x.call.node].status.Finished?
    ensures var (db', x') := FirstStatement(db, w, x);
      && db' == Locking(db, w, db.ledger)
      && x' == if x.call.node in x.snap.steps && !x.snap.steps[x.call.node].status.Finished? then x.(pc := Marking)
               else x.(pc := Ready, reply := Some(db.ledger.steps[x.call.node]))
  {
  }

  lemma CompletesFinished(db: Database, w: WorkerId, x: Request)
    requires x.call.BeginExternalCall? && Live(db.draft.execution, x.call.lease, db.clock)
    requires x.call.node in db.draft.steps && db.draft.steps[x.call.node].status.Finished? && x.call.node in x.snap.steps
    ensures var (db', x') := LastStatement(db, w, x);
      && db' == Locking(db, w, db.draft)
      && x' == x.(pc := Ready, event := None, reply := Some(x.snap.steps[x.call.node]))
  {
  }

  /** When the row of a terminal execution does change: exactly when a recovery scan, which
      saw it recoverable in its snapshot, commits its unguarded write afterwards. */
  lemma TerminalExecutionChanges(definition: nat, schedule: seq<Action>, a: Action)
    requires Execute(definition, schedule).db.ledger.execution.status.Ended?
    ensures var s := Execute(definition, schedule);
      var e := s.db.ledger.execution;
      && (Apply(s, a).db.ledger.execution != e <==>
            a.Commit? && a.w in s.requests && s.requests[a.w].pc.Ready? && s.requests[a.w].call.RecoverCall? && Mark(e) != e)
      && (Apply(s, a).db.ledger.execution != e ==> s.requests[a.w].snap.execution != e)
  {
    InvAlways(definition, schedule);
    var s := Execute(definition, schedule);
    if a.w in s.requests {
      assert RequestOk(s.db, a.w, s.requests[a.w]);
      if !a.Commit? {
        MoveKeepsRows(s.db, s.requests[a.w], a);
      }
    }
  }

  /** Only a commit changes committed rows. */
  lemma MoveKeepsRows(db: Database, x: Request, a: Action)
    requires !a.Commit?
    ensures Move(db, x, a).0.ledger == db.ledger && Move(db, x, a).0.log == db.log
  {
  }

  /** A recovery scan that saw the execution before its end and may still mark it. */
  predicate PendingScan(x: Request) {
    x.call.RecoverCall? && !x.snap.execution.status.Ended? && (x.pc.Opened? || x.pc.Asking? || x.pc.Ready?)
  }

  /** The execution has ended and no such scan is under way. */
  ghost predicate Settled(s: State) {
    s.db.ledger.execution.status.Ended? && forall w :: w in s.requests ==> !PendingScan(s.requests[w])
  }

  lemma SettledStep(s: State, a: Action)
    requires Inv(s) && Settled(s)
    ensures Settled(Apply(s, a)) && Apply(s, a).db.ledger.execution == s.db.ledger.execution
  {
    if a.w in s.requests {
      assert RequestOk(s.db, a.w, s.requests[a.w]);
      SettledMove(s.db, s.requests[a.w], a);
    }
  }

  lemma SettledMove(db: Database, x: Request, a: Action)
    requires RequestOk(db, a.w, x) && db.ledger.execution.status.Ended? && !PendingScan(x)
    ensures var (db', x') := Move(db, x, a);
      db'.ledger.execution == db.ledger.execution && !PendingScan(x')
  {
    if !a.Commit? {
      MoveKeepsRows(db, x, a);
    }
  }

  /** A scan goes on to its mark exactly if its snapshot showed the execution pending, or running
      without a lease or with one that had expired when it read. */
  lemma ScanSawItDue(definition: nat, schedule: seq<Action>, w: WorkerId)
    requires w in Execute(definition, schedule).requests && Execute(definition, schedule).requests[w].call.RecoverCall?
    ensures var s := Execute(definition, schedule);
      var x := s.requests[w];
      var e := x.snap.execution;
      && (x.pc.Asking? || x.pc.Ready? ==>
            e.status == Pending || (e.status == Running && (e.expires == None || e.expires.value < x.now)))
      && (x.pc.Opened? ==>
            Apply(s, Ask(w)).requests[w].pc ==
              if e.status == Pending || (e.status == Running && (e.expires == None || e.expires.value < s.db.clock)) then Asking
              else Aborted)
  {
    InvAlways(definition, schedule);
    assert RequestOk(Execute(definition, schedule).db, w, Execute(definition, schedule).requests[w]);
  }

  /** The execution row is the same after every later schedule. */
  ghost predicate Final(definition: nat, schedule: seq<Action>) {
    forall later :: Execute(definition, schedule + later).db.ledger.execution
                 == Execute(definition, schedule).db.ledger.execution
  }

  lemma {:induction false} SettledIsFinal(definition: nat, schedule: seq<Action>, later: seq<Action>)
    requires Settled(Execute(definition, schedule))
    ensures Settled(Execute(definition, schedule + later))
    ensures Execute(definition, schedule + later).db.ledger.execution == Execute(definition, schedule).db.ledger.execution
  {
    if later == [] {
      assert schedule + later == schedule;
    } else {
      var n := |later| - 1;
      var whole := schedule + later;
      assert whole[..|whole| - 1] == schedule + later[..n];
      SettledIsFinal(definition, schedule, later[..n]);
      InvAlways(definition, schedule + later[..n]);
      SettledStep(Execute(definition, schedule + later[..n]), later[n]);
    }
  }

  lemma {:induction false} MarkedIsFinal(definition: nat, schedule: seq<Action>, later: seq<Action>)
    requires var e := Execute(definition, schedule).db.ledger.execution; e.status.Ended? && Mark(e) == e
    ensures Execute(definition, schedule + later).db.ledger.execution == Execute(definition, schedule).db.ledger.execution
  {
    if later == [] {
      assert schedule + later == schedule;
    } else {
      var n := |later| - 1;
      var whole := schedule + later;
      assert whole[..|whole| - 1] == schedule + later[..n];
      MarkedIsFinal(definition, schedule, later[..n]);
      TerminalExecutionChanges(definition, schedule + later[..n], later[n]);
    }
  }

  function Stage(s: State, w: WorkerId): nat
    requires w in s.requests
  {
    match s.requests[w].pc
    case Opened => if Recoverable(s.requests[w].snap.execution, s.db.clock) then 3 else 4
    case Asking => if s.db.lock.Some? then 2 else 1
    case _ => 0
  }

  /** The next step of a pending scan on its way to the mark. */
  function TowardsMark(s: State, w: WorkerId): Action
    requires w in s.requests && PendingScan(s.requests[w]) && (s.db.lock.Some? ==> s.db.lock.value in s.requests)
  {
    var x := s.requests[w];
    match x.pc
    case Opened =>
      if Recoverable(x.snap.execution, s.db.clock) then Ask(w)
      else
        var expires := x.snap.execution.expires.value;
        Tick(w, if expires < s.db.clock then 0 else expires - s.db.clock + 1)
    case Asking => if s.db.lock.Some? then Abort(s.db.lock.value) else Acquire(w)
    case _ => Commit(w)
  }

  lemma TowardsMarkAdvances(s: State, w: WorkerId)
    requires Inv(s) && w in s.requests && PendingScan(s.requests[w]) && s.db.ledger.execution.status.Ended?
    requires Stage(s, w) > 0
    ensures var t := Apply(s, TowardsMark(s, w));
      && w in t.requests && PendingScan(t.requests[w]) && Stage(t, w) < Stage(s, w)
      && t.db.ledger.execution == s.db.ledger.execution
  {
    hide DatabaseOk, ReadyOk, MidWay;
    assert RequestOk(s.db, w, s.requests[w]);
    if s.db.lock.Some? {
      assert RequestOk(s.db, s.db.lock.value, s.requests[s.db.lock.value]);
    }
  }

  /** A pending scan can always go on to overwrite the outcome. */
  lemma {:induction false} PendingScanCanMark(definition: nat, schedule: seq<Action>, w: WorkerId)
    returns (later: seq<Action>)
    requires var s := Execute(definition, schedule);
      && w in s.requests && PendingScan(s.requests[w])
      && s.db.ledger.execution.status.Ended? && Mark(s.db.ledger.execution) != s.db.ledger.execution
    ensures Execute(definition, schedule + later).db.ledger.execution != Execute(definition, schedule).db.ledger.execution
    decreases Stage(Execute(definition, schedule), w)
  {
    hide Execute, Apply, Inv, Recoverable;
    var s := Execute(definition, schedule);
    InvAlways(definition, schedule);
    var a := TowardsMark(s, w);
    ExecuteOne(definition, schedule, a);
    if Stage(s, w) == 0 {
      TerminalExecutionChanges(definition, schedule, a);
      later := [a];
    } else {
      TowardsMarkAdvances(s, w);
      var rest := PendingScanCanMark(definition, schedule + [a], w);
      later := [a] + rest;
      assert schedule + later == schedule + [a] + rest;
    }
  }

  /** A terminal execution is final exactly when no recovery scan that saw it before its end
      is still under way, or when it already carries what such a scan would write. */
  lemma TerminalIsFinalIff(definition: nat, schedule: seq<Action>)
    requires Execute(definition, schedule).db.ledger.execution.status.Ended?
    ensures var s := Execute(definition, schedule);
      Final(definition, schedule) <==> Settled(s) || Mark(s.db.ledger.execution) == s.db.ledger.execution
  {
    var s := Execute(definition, schedule);
    if Settled(s) {
      forall later ensures Execute(definition, schedule + later).db.ledger.execution == s.db.ledger.execution {
        SettledIsFinal(definition, schedule, later);
      }
    } else if Mark(s.db.ledger.execution) == s.db.ledger.execution {
      forall later ensures Execute(definition, schedule + later).db.ledger.execution == s.db.ledger.execution {
        MarkedIsFinal(definition, schedule, later);
      }
    } else {
      var w :| w in s.requests && PendingScan(s.requests[w]);
      var later := PendingScanCanMark(definition, schedule, w);
    }
  }

  // ----- two schedules -----

  ghost predicate Reachable(s: State) {
    exists definition, schedule :: Execute(definition, schedule) == s
  }

  lemma Reach(s: State, a: Action) returns (t: State)
    requires Reachable(s)
    ensures t == Apply(s, a) && Reachable(t)
  {
    t := Apply(s, a);
    var definition, schedule :| Execute(definition, schedule) == s;
    assert (schedule + [a])[..|schedule|] == schedule;
    assert Execute(definition, schedule + [a]) == t;
  }

  /** Worker 0 has just claimed the execution. */
  function FirstClaimed(): Database {
    var l := Ledger(Execution(0, Running, Some(7), 1, Some(10), None), map[]);
    Database(l, l, None, 0, [Claims(Lease(7, 1), 0, 10)])
  }

  lemma FirstClaim() returns (s: State)
    ensures Reachable(s) && s.db == FirstClaimed() && s.requests.Keys == {0}
  {
    hide Reachable;
    assert Execute(0, []) == Initial(0);
    s := Reach(Initial(0), Open(0, ClaimCall(7, 10)));
    s := Reach(s, Ask(0));
    s := Reach(s, Acquire(0));
    s := Reach(s, Commit(0));
  }

  lemma ActsUnderFirstLease(answer: Answer) returns (s: State)
    ensures Reachable(s) && s.requests.Keys == {0, 1} && s.db.lock == Some(1)
    ensures s.db == FirstClaimed().(lock := Some(1), draft := s.db.draft)
    ensures s.db.draft.execution == FirstClaimed().ledger.execution
    ensures s.requests[1].pc == Completing(answer) && s.requests[1].call == RunLocalCall(Lease(7, 1), 5)
  {
    hide Reachable;
    var s0 := FirstClaim();
    var call := RunLocalCall(Lease(7, 1), 5);
    s := Reach(s0, Open(1, call));
    s := Reach(s, Ask(1));
    s := Reach(s, Acquire(1));
    s := Reach(s, Act(1, answer));
  }

  /** Worker 1 runs a local action under the first lease, which expires before the action
      answers; its second check refuses and everything it did is rolled back. */
  lemma ExpiryMidRequest(answer: Answer) returns (s: State)
    ensures Reachable(s) && s.db == FirstClaimed().(clock := 11) && s.requests.Keys == {0, 1}
  {
    hide Reachable;
    var s1 := ActsUnderFirstLease(answer);
    s := Reach(s1, Tick(1, 11));
    s := Reach(s, Complete(1));
  }

  lemma SecondClaim(lost: Answer) returns (s: State)
    ensures Reachable(s) && s.requests.Keys == {0, 1, 2} && s.db.lock == None && s.db.clock == 11
    ensures s.db.log == [Claims(Lease(7, 1), 0, 10), Claims(Lease(8, 2), 11, 21)]
    ensures s.db.ledger == Ledger(Execution(0, Running, Some(8), 2, Some(21), None), map[])
  {
    hide Reachable;
    var s0 := ExpiryMidRequest(lost);
    s := Reach(s0, Open(2, ClaimCall(8, 10)));
    s := Reach(s, Ask(2));
    s := Reach(s, Acquire(2));
    s := Reach(s, Commit(2));
  }

  lemma SecondRun(lost: Answer, answer: Answer) returns (s: State)
    ensures Reachable(s) && 3 in s.requests && s.db.clock == 11 && s.db.lock == Some(3)
    ensures s.db.log == [Claims(Lease(7, 1), 0, 10), Claims(Lease(8, 2), 11, 21)]
    ensures s.requests[3].pc == Completing(answer) && s.requests[3].call == RunLocalCall(Lease(8, 2), 5)
    ensures s.db.draft
         == Ledger(Execution(0, Running, Some(8), 2, Some(21), None), map[5 := Step(FrappeAtomic, Claimed, None)])
  {
    hide Reachable;
    var s1 := SecondClaim(lost);
    s := Reach(s1, Open(3, RunLocalCall(Lease(8, 2), 5)));
    s := Reach(s, Ask(3));
    s := Reach(s, Acquire(3));
    s := Reach(s, Act(3, answer));
  }

  /** A takeover then runs the action under the next generation, and commits it. */
  lemma TakeoverActs(lost: Answer, answer: Answer) returns (s: State)
    ensures Reachable(s)
    ensures s.db.log == [Claims(Lease(7, 1), 0, 10), Claims(Lease(8, 2), 11, 21), Acts(Lease(8, 2), 11, 5, answer)]
  {
    hide Reachable;
    var s1 := SecondRun(lost, answer);
    s := Reach(s1, Complete(3));
    s := Reach(s, Commit(3));
  }

  lemma DispatchAcquires() returns (s: State)
    ensures Reachable(s) && s.requests.Keys == {0, 1} && s.db.lock == Some(1) && s.db.clock == 0
    ensures s.db == FirstClaimed().(lock := Some(1), draft := s.db.draft)
    ensures s.db.draft.steps == map[5 := Step(External, Claimed, None)]
    ensures s.db.draft.execution == FirstClaimed().ledger.execution
    ensures s.requests[1].pc == Marking && s.requests[1].call == BeginExternalCall(Lease(7, 1), 5)
    ensures s.requests[1].event == None
  {
    hide Reachable;
    s := FirstClaim();
    s := Reach(s, Open(1, BeginExternalCall(Lease(7, 1), 5)));
    s := Reach(s, Ask(1));
    s := Reach(s, Acquire(1));
  }

  /** An external step is dispatched. */
  lemma StepIsDispatched() returns (s: State)
    ensures Reachable(s) && s.requests.Keys == {0, 1} && s.db.lock == None && s.db.clock == 0
    ensures s.db.ledger == FirstClaimed().ledger.(steps := map[5 := Step(External, Dispatching, None)])
    ensures s.db.log == [Claims(Lease(7, 1), 0, 10), Dispatches(Lease(7, 1), 0, 5)]
    ensures s.requests[1].reply == Some(Step(External, Dispatching, None))
  {
    hide Reachable;
    s := DispatchAcquires();
    s := Reach(s, Complete(1));
    assert s.requests[1].pc == Ready;
    s := Reach(s, Commit(1));
  }

  lemma FinishAcquires(how: Terminal, result: Option<nat>) returns (s: State)
    ensures Reachable(s) && s.requests.Keys == {0, 1, 2} && s.db.lock == Some(2)
    ensures s.db.draft.steps == map[5 := Step(External, Finished(how), result)]
    ensures s.requests[2].pc == Ready
  {
    hide Reachable;
    s := StepIsDispatched();
    s := Reach(s, Open(2, FinishStepCall(Lease(7, 1), 5, how, result)));
    s := Reach(s, Ask(2));
    s := Reach(s, Acquire(2));
  }

  /** It is then finished as the call says, failed without a result for one. */
  lemma StepIsFinished(how: Terminal, result: Option<nat>) returns (s: State)
    ensures Reachable(s) && s.db.ledger.steps == map[5 := Step(External, Finished(how), result)]
  {
    hide Reachable;
    s := FinishAcquires(how, result);
    s := Reach(s, Commit(2));
  }

  /** A renewal moves the expiry of the live lease. */
  lemma LeaseIsRenewed() returns (s: State)
    ensures Reachable(s) && s.db.ledger.execution == FirstClaimed().ledger.execution.(expires := Some(65))
  {
    hide Reachable;
    s := FirstClaim();
    s := Reach(s, Open(1, RenewCall(Lease(7, 1), 60)));
    s := Reach(s, Tick(1, 5));
    s := Reach(s, Ask(1));
    assert s.requests[1].now == 5;
    s := Reach(s, Acquire(1));
    assert s.requests[1].pc == Ready;
    s := Reach(s, Commit(1));
  }

  lemma ScanThenClaim() returns (s: State)
    ensures Reachable(s) && s.requests.Keys == {0, 1} && s.db == FirstClaimed()
    ensures s.requests[1].pc == Asking && s.requests[1].call == RecoverCall
  {
    hide Reachable;
    assert Execute(0, []) == Initial(0);
    var s0 := Reach(Initial(0), Open(1, RecoverCall));
    s0 := Reach(s0, Ask(1));
    s0 := Reach(s0, Open(0, ClaimCall(7, 10)));
    s0 := Reach(s0, Ask(0));
    s := Reach(s0, Acquire(0));
    s := Reach(s, Commit(0));
  }

  lemma FinishesBeforeTheMark() returns (s: State)
    ensures Reachable(s) && 1 in s.requests && s.db.lock == None
    ensures s.db.ledger.execution.status == Ended(Succeeded)
    ensures s.requests[1].pc == Asking && s.requests[1].call == RecoverCall
  {
    hide Reachable;
    var s1 := ScanThenClaim();
    s := Reach(s1, Open(2, EndCall(Lease(7, 1), Succeeded)));
    s := Reach(s, Ask(2));
    s := Reach(s, Acquire(2));
    s := Reach(s, Commit(2));
  }

  /** The recovery scan reads and marks in two statements: here the execution finishes
      successfully in between, and the mark overwrites the outcome. */
  lemma ScanOverwritesOutcome() returns (s: State, t: State)
    ensures Reachable(s) && Reachable(t)
    ensures s.db.ledger.execution.status == Ended(Succeeded)
    ensures t.db.ledger.execution.status == Ended(NeedsReview)
  {
    hide Reachable;
    s := FinishesBeforeTheMark();
    t := Reach(s, Acquire(1));
    t := Reach(t, Commit(1));
  }
}
