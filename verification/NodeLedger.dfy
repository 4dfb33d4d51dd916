/** The idempotency ledger row behind one gateway key, and the requests that race for it.

    `run_rule_node` commits the claimed row early, then relies on a session advisory
    lock while it runs the action, and on the row lock while it finishes.
    `run_workflow_node` never commits a claimed row: its insert lock covers the whole
    request. Both are cut here at every point where another request can interleave:
    lookups, locking reads, lock waits, commits, rollbacks and crashes. */
module NodeLedger {

  import opened Basics

  type WorkerId = nat

  /** The response body of one finished action; `failed` is its "Failed" status. */
  datatype Outcome = Outcome(failed: bool, body: nat)

  /** The ledger row of the key: not inserted, claimed, or terminal with its stored result. */
  datatype Row = Absent | Claimed | Terminal(outcome: Outcome)

  datatype Endpoint = RuleNode | WorkflowNode

  datatype Pc =
    | Looking                      // transaction open, snapshot taken, row not looked up yet
    | Inserting                    // the snapshot shows no row
    | Refetching                   // duplicate key: about to read the row FOR UPDATE
    | Holding                      // has the claimed row, has not committed it
    | Waiting                      // claimed row committed, about to GET_LOCK
    | TimedOut                     // GET_LOCK returned 0
    | Locked                       // holds the advisory lock, about to re-check the row
    | Executing(attempt: nat)      // about to run the action
    | Finishing(outcome: Outcome)  // about to write the terminal status
    | Unlocking(outcome: Outcome)  // about to RELEASE_LOCK
    | Returning(outcome: Outcome)  // about to commit the request
    | Aborting                     // raised or died; the transaction is still open
    | Aborted                      // rolled back
    | Done(reply: Outcome)         // committed and answered

  /** `snap` is what non-locking reads of the open transaction see; `runs` counts the
      action runs inside that transaction. */
  datatype Request = Request(endpoint: Endpoint, pc: Pc, snap: Row, runs: nat)

  /** A committed transaction that ran the action or made the row terminal. */
  datatype Commit = Commit(worker: WorkerId, runs: nat, outcome: Outcome)

  /** The database: the committed row, its uncommitted version (owned by the holder of the
      row lock), the two locks, and a history of the commits that matter. */
  datatype Database = Database(
    row: Row,
    pending: Option<Row>,
    rowLock: Option<WorkerId>,
    advisory: Option<WorkerId>,
    history: seq<Commit>)

  datatype State = State(db: Database, requests: map<WorkerId, Request>)

  datatype Action =
    | Begin(w: WorkerId, endpoint: Endpoint)
    | Look(w: WorkerId)
    | Insert(w: WorkerId)
    | Refetch(w: WorkerId)
    | CommitClaim(w: WorkerId)
    | GetLock(w: WorkerId)
    | LockTimeout(w: WorkerId)
    | TimedOutRead(w: WorkerId)
    | Recheck(w: WorkerId)
    | Run(w: WorkerId, outcome: Outcome)
    | Conflict(w: WorkerId, body: nat)
    | Finish(w: WorkerId, accepted: bool)
    | Unlock(w: WorkerId)
    | CommitRequest(w: WorkerId)
    | Abort(w: WorkerId)
    | Rollback(w: WorkerId)
    | DropLock(w: WorkerId)

  const CONFLICT_RETRIES := 3

  function Init(): State {
    State(Database(Absent, None, None, None, []), map[])
  }

  predicate Free(db: Database, w: WorkerId) {
    db.rowLock == None || db.rowLock == Some(w)
  }

  /** What a locking read inside `w`'s own transaction sees. */
  function Current(db: Database, w: WorkerId): Row {
    if db.rowLock == Some(w) && db.pending.Some? then db.pending.value else db.row
  }

  function Committed(db: Database, w: WorkerId): Database {
    if db.rowLock == Some(w) then db.(row := Current(db, w), pending := None, rowLock := None) else db
  }

  function RolledBack(db: Database, w: WorkerId): Database {
    if db.rowLock == Some(w) then db.(pending := None, rowLock := None) else db
  }

  function LockReleased(db: Database, w: WorkerId): Database {
    if db.advisory == Some(w) then db.(advisory := None) else db
  }

  /** Where a request goes once it sees row content `r`: it gives up on a row that is not
      there, owns a claimed row, and replays a terminal one. */
  function AfterSeeing(x: Request, r: Row): Pc {
    match r
    case Absent => Aborting
    case Claimed => if x.endpoint == RuleNode then Holding else Executing(1)
    case Terminal(o) => Returning(o)
  }

  /** One step of request `x` of worker `a.w`. A step whose guard does not hold changes nothing. */
  function Move(db: Database, x: Request, a: Action): (Database, Request) {
    match a
    case Begin(_, _) => (db, x)
    case Look(_) =>
      if !x.pc.Looking? then (db, x) else
      (db, x.(pc := if x.snap == Absent then Inserting else AfterSeeing(x, x.snap)))
    case Insert(w) =>
      if !x.pc.Inserting? || !Free(db, w) then (db, x) else
      if db.row != Absent then (db, x.(pc := Refetching)) else
      (db.(rowLock := Some(w), pending := Some(Claimed)), x.(pc := AfterSeeing(x, Claimed)))
    case Refetch(w) =>
      if !x.pc.Refetching? || !Free(db, w) then (db, x) else
      (db.(rowLock := Some(w)), x.(pc := AfterSeeing(x, db.row)))
    case CommitClaim(w) =>
      if !x.pc.Holding? then (db, x) else (Committed(db, w), x.(pc := Waiting))
    case GetLock(w) =>
      if !x.pc.Waiting? || db.advisory.Some? then (db, x) else (db.(advisory := Some(w)), x.(pc := Locked))
    case LockTimeout(_) =>
      if !x.pc.Waiting? then (db, x) else (db, x.(pc := TimedOut))
    case TimedOutRead(w) =>
      if !x.pc.TimedOut? || !Free(db, w) then (db, x) else
      (db.(rowLock := Some(w)), x.(pc := if db.row.Terminal? then Returning(db.row.outcome) else Aborting))
    case Recheck(w) =>
      if !x.pc.Locked? || !Free(db, w) then (db, x) else
      (db.(rowLock := Some(w)), x.(pc := if db.row.Terminal? then Unlocking(db.row.outcome) else Executing(1)))
    case Run(_, o) =>
      if !x.pc.Executing? then (db, x) else (db, x.(pc := Finishing(o), runs := x.runs + 1))
    case Conflict(w, body) =>
      if !x.pc.Executing? || x.endpoint != RuleNode then (db, x) else
      var next := if x.pc.attempt < CONFLICT_RETRIES then Executing(x.pc.attempt + 1) else Finishing(Outcome(true, body));
      (RolledBack(db, w), x.(pc := next, runs := 0))
    case Finish(w, accepted) =>
      if !x.pc.Finishing? || !Free(db, w) then (db, x) else
      var o := x.pc.outcome;
      var next := if x.endpoint == RuleNode then Unlocking(o) else Returning(o);
      if Current(db, w) == Claimed then
        (db.(rowLock := Some(w), pending := Some(Terminal(o))), x.(pc := next))
      else
        (db.(rowLock := Some(w)), x.(pc := if accepted then next else Aborting))
    case Unlock(w) =>
      if !x.pc.Unlocking? then (db, x) else (LockReleased(db, w), x.(pc := Returning(x.pc.outcome)))
    case CommitRequest(w) =>
      if !x.pc.Returning? then (db, x) else
      var wrote := Current(db, w) != db.row && Current(db, w).Terminal?;
      var history := if wrote || x.runs > 0 then db.history + [Commit(w, x.runs, x.pc.outcome)] else db.history;
      (Committed(db, w).(history := history), x.(pc := Done(x.pc.outcome), runs := 0))
    case Abort(_) =>
      if x.pc.Done? || x.pc.Aborted? then (db, x) else (db, x.(pc := Aborting))
    case Rollback(w) =>
      if !x.pc.Aborting? then (db, x) else (RolledBack(db, w), x.(pc := Aborted, runs := 0))
    case DropLock(w) =>
      if !x.pc.Aborting? && !x.pc.Aborted? then (db, x) else (LockReleased(db, w), x)
  }

  function Apply(s: State, a: Action): State {
    if a.w in s.requests then
      var (db, x) := Move(s.db, s.requests[a.w], a);
      State(db, s.requests[a.w := x])
    else if a.Begin? then
      s.(requests := s.requests[a.w := Request(a.endpoint, Looking, s.db.row, 0)])
    else
      s
  }

  /** The state after a whole schedule, from an empty ledger. */
  function Execute(schedule: seq<Action>): State {
    if schedule == [] then Init()
    else Apply(Execute(schedule[..|schedule| - 1]), schedule[|schedule| - 1])
  }

  // ----- the invariant -----

  predicate NeedsAdvisory(pc: Pc) {
    pc.Locked? || pc.Executing? || pc.Finishing? || pc.Unlocking?
  }

  ghost predicate RowGrew(before: Row, after: Row) {
    before == after || before == Absent || (before == Claimed && after.Terminal?)
  }

  /** The row's uncommitted version, if `w` wrote it. */
  function Written(db: Database, w: WorkerId): Option<Row> {
    if db.rowLock == Some(w) then db.pending else None
  }

  ghost predicate DatabaseOk(db: Database, e: Endpoint) {
    && (db.pending.Some? ==> db.rowLock.Some? && db.pending.value != Absent)
    && (db.pending == Some(Claimed) ==> db.row == Absent)
    && (db.pending.Some? && db.pending.value.Terminal? ==> db.row == (if e == RuleNode then Claimed else Absent))
    && (e == WorkflowNode ==> db.row != Claimed)
    && if db.row.Terminal? then |db.history| == 1 && db.history[0].runs <= 1 && db.history[0].outcome == db.row.outcome
       else db.history == []
  }

  ghost predicate LocksOk(db: Database, w: WorkerId, x: Request) {
    && (db.advisory == Some(w) ==> x.endpoint == RuleNode && (NeedsAdvisory(x.pc) || x.pc.Aborting? || x.pc.Aborted?))
    && (x.endpoint == RuleNode && NeedsAdvisory(x.pc) ==> db.advisory == Some(w))
    && (Written(db, w).Some? && Written(db, w).value.Terminal? ==>
          x.pc.Aborting? || x.pc == Unlocking(Written(db, w).value.outcome) || x.pc == Returning(Written(db, w).value.outcome))
  }

  /** The request may run the action: the row it will finish is claimed, and by it alone. */
  ghost predicate Alone(db: Database, w: WorkerId, x: Request) {
    if x.endpoint == RuleNode then db.row == Claimed && db.pending == None else Written(db, w) == Some(Claimed)
  }

  /** The answer `o` is either already the committed row or about to be committed with it. */
  ghost predicate Settled(db: Database, w: WorkerId, x: Request, o: Outcome) {
    || (Written(db, w) == Some(Terminal(o)) && x.runs <= 1)
    || (Written(db, w) == None && x.runs == 0 && db.row == Terminal(o))
  }

  ghost predicate PcOk(db: Database, w: WorkerId, x: Request) {
    var idle := Written(db, w) == None && x.runs == 0;
    match x.pc
    case Looking => idle
    case Inserting => idle
    case Refetching => idle && db.row != Absent
    case Holding => x.runs == 0 && x.endpoint == RuleNode && Current(db, w) != Absent
    case Waiting => idle && x.endpoint == RuleNode && db.row != Absent
    case TimedOut => idle && x.endpoint == RuleNode && db.row != Absent
    case Locked => idle && x.endpoint == RuleNode && db.row != Absent
    case Executing(k) => x.runs == 0 && Alone(db, w, x) && 1 <= k <= (if x.endpoint == RuleNode then CONFLICT_RETRIES else 1)
    case Finishing(_) => x.runs <= 1 && Alone(db, w, x)
    case Unlocking(o) => x.endpoint == RuleNode && Settled(db, w, x, o)
    case Returning(o) => Settled(db, w, x, o)
    case Aborting => true
    case Aborted => idle
    case Done(o) => idle && db.row == Terminal(o)
  }

  ghost predicate RequestOk(db: Database, w: WorkerId, x: Request, e: Endpoint) {
    && x.endpoint == e
    && RowGrew(x.snap, db.row)
    && (e == WorkflowNode ==> x.snap != Claimed)
    && LocksOk(db, w, x)
    && PcOk(db, w, x)
  }

  ghost predicate Inv(s: State, e: Endpoint) {
    && DatabaseOk(s.db, e)
    && (s.db.rowLock.Some? ==> s.db.rowLock.value in s.requests)
    && (s.db.advisory.Some? ==> s.db.advisory.value in s.requests)
    && forall w :: w in s.requests ==> RequestOk(s.db, w, s.requests[w], e)
  }

  // ----- one step -----

  ghost predicate MoverOk(db: Database, x: Request, a: Action, e: Endpoint) {
    var (db', x') := Move(db, x, a);
    DatabaseOk(db', e) && RequestOk(db', a.w, x', e) && RowGrew(db.row, db'.row)
  }

  lemma LookingStaysOk(db: Database, x: Request, a: Action, e: Endpoint)
    requires DatabaseOk(db, e) && RequestOk(db, a.w, x, e)
    requires a.Begin? || a.Look? || a.Insert? || a.Refetch?
    ensures MoverOk(db, x, a, e)
  {
  }

  lemma ClaimingStaysOk(db: Database, x: Request, a: Action, e: Endpoint)
    requires DatabaseOk(db, e) && RequestOk(db, a.w, x, e)
    requires a.CommitClaim? || a.GetLock? || a.LockTimeout?
    ensures MoverOk(db, x, a, e)
  {
  }

  lemma RunningStaysOk(db: Database, x: Request, a: Action, e: Endpoint)
    requires DatabaseOk(db, e) && RequestOk(db, a.w, x, e)
    requires a.TimedOutRead? || a.Recheck? || a.Run? || a.Conflict?
    ensures MoverOk(db, x, a, e)
  {
  }

  lemma EndingStaysOk(db: Database, x: Request, a: Action, e: Endpoint)
    requires DatabaseOk(db, e) && RequestOk(db, a.w, x, e)
    requires a.Abort? || a.Rollback? || a.DropLock?
    ensures MoverOk(db, x, a, e)
  {
  }

  lemma FinishingStaysOk(db: Database, x: Request, a: Action, e: Endpoint)
    requires DatabaseOk(db, e) && RequestOk(db, a.w, x, e)
    requires a.Unlock? || a.CommitRequest?
    ensures MoverOk(db, x, a, e)
  {
  }

  lemma FinishStaysOk(db: Database, x: Request, a: Action, e: Endpoint)
    requires DatabaseOk(db, e) && RequestOk(db, a.w, x, e) && a.Finish?
    ensures MoverOk(db, x, a, e)
  {
  }

  lemma MoverStaysOk(db: Database, x: Request, a: Action, e: Endpoint)
    requires DatabaseOk(db, e) && RequestOk(db, a.w, x, e)
    ensures MoverOk(db, x, a, e)
  {
    if a.Finish? {
      FinishStaysOk(db, x, a, e);
    } else if a.Unlock? || a.CommitRequest? {
      FinishingStaysOk(db, x, a, e);
    } else if a.TimedOutRead? || a.Recheck? || a.Run? || a.Conflict? {
      RunningStaysOk(db, x, a, e);
    } else if a.Abort? || a.Rollback? || a.DropLock? {
      EndingStaysOk(db, x, a, e);
    } else if a.Begin? || a.Look? || a.Insert? || a.Refetch? {
      LookingStaysOk(db, x, a, e);
    } else {
      ClaimingStaysOk(db, x, a, e);
    }
  }

  lemma CommitKeepsOthers(db: Database, x: Request, a: Action, v: WorkerId, y: Request, e: Endpoint)
    requires DatabaseOk(db, e) && RequestOk(db, a.w, x, e)
    requires v != a.w && RequestOk(db, v, y, e) && (a.CommitClaim? || a.CommitRequest?)
    ensures RequestOk(Move(db, x, a).0, v, y, e)
  {
  }

  lemma RestKeepsOthers(db: Database, x: Request, a: Action, v: WorkerId, y: Request, e: Endpoint)
    requires DatabaseOk(db, e) && RequestOk(db, a.w, x, e)
    requires v != a.w && RequestOk(db, v, y, e) && !a.CommitClaim? && !a.CommitRequest?
    ensures RequestOk(Move(db, x, a).0, v, y, e)
  {
  }

  lemma OtherStaysOk(db: Database, x: Request, a: Action, v: WorkerId, y: Request, e: Endpoint)
    requires DatabaseOk(db, e) && RequestOk(db, a.w, x, e)
    requires v != a.w && RequestOk(db, v, y, e)
    ensures RequestOk(Move(db, x, a).0, v, y, e)
  {
    if a.CommitClaim? || a.CommitRequest? {
      CommitKeepsOthers(db, x, a, v, y, e);
    } else {
      RestKeepsOthers(db, x, a, v, y, e);
    }
  }

  lemma BeginStep(s: State, a: Action, e: Endpoint)
    requires Inv(s, e) && a.w !in s.requests && (a.Begin? ==> a.endpoint == e)
    ensures Inv(Apply(s, a), e)
  {
    if a.Begin? {
      assert RequestOk(s.db, a.w, Request(e, Looking, s.db.row, 0), e);
    }
  }

  lemma InvStep(s: State, a: Action, e: Endpoint)
    requires Inv(s, e) && (a.Begin? ==> a.endpoint == e)
    ensures Inv(Apply(s, a), e) && RowGrew(s.db.row, Apply(s, a).db.row)
  {
    if a.w !in s.requests {
      BeginStep(s, a, e);
    } else {
      var t := Apply(s, a);
      MoverStaysOk(s.db, s.requests[a.w], a, e);
      LockHolders(s, a);
      forall v | v in t.requests ensures RequestOk(t.db, v, t.requests[v], e) {
        if v != a.w {
          OtherStaysOk(s.db, s.requests[a.w], a, v, s.requests[v], e);
        }
      }
    }
  }

  lemma LockHolders(s: State, a: Action)
    requires a.w in s.requests
    requires s.db.rowLock.Some? ==> s.db.rowLock.value in s.requests
    requires s.db.advisory.Some? ==> s.db.advisory.value in s.requests
    ensures var t := Apply(s, a);
      && (t.db.rowLock.Some? ==> t.db.rowLock.value in t.requests)
      && (t.db.advisory.Some? ==> t.db.advisory.value in t.requests)
  {
  }

  lemma {:induction false} InvAlways(schedule: seq<Action>, e: Endpoint)
    requires Through(schedule, e)
    ensures Inv(Execute(schedule), e)
  {
    if schedule != [] {
      var n := |schedule| - 1;
      InvAlways(schedule[..n], e);
      assert schedule[n].Begin? ==> schedule[n].endpoint == e;
      InvStep(Execute(schedule[..n]), schedule[n], e);
    }
  }

  // ----- what holds over every schedule -----

  /** Every request of the schedule comes through endpoint `e`. */
  ghost predicate Through(schedule: seq<Action>, e: Endpoint) {
    forall i :: 0 <= i < |schedule| && schedule[i].Begin? ==> schedule[i].endpoint == e
  }

  /** The action takes effect at most once: at most one committed transaction ran it, and
      the commit that did made the row terminal with that run's own outcome. */
  lemma AtMostOneCommittedRun(schedule: seq<Action>, e: Endpoint)
    requires Through(schedule, e)
    ensures var db := Execute(schedule).db;
      && |db.history| <= 1
      && (db.history != [] <==> db.row.Terminal?)
      && (db.history != [] ==> db.history[0].runs <= 1 && db.row == Terminal(db.history[0].outcome))
  {
    InvAlways(schedule, e);
  }

  /** Every answer ever given for the key is the one stored outcome. */
  lemma EveryReplyIsTheStoredOutcome(schedule: seq<Action>, e: Endpoint, w: WorkerId)
    requires Through(schedule, e)
    requires w in Execute(schedule).requests && Execute(schedule).requests[w].pc.Done?
    ensures Execute(schedule).db.row == Terminal(Execute(schedule).requests[w].pc.reply)
  {
    InvAlways(schedule, e);
    assert RequestOk(Execute(schedule).db, w, Execute(schedule).requests[w], e);
  }

  /** While the action is being run by `run_rule_node`, the row is durably claimed and
      nobody else runs it: the runner holds the advisory lock. */
  lemma OneRunnerAtATime(schedule: seq<Action>, w: WorkerId, v: WorkerId)
    requires Through(schedule, RuleNode)
    requires var rs := Execute(schedule).requests;
      w in rs && v in rs && NeedsAdvisory(rs[w].pc) && NeedsAdvisory(rs[v].pc)
    ensures w == v && Execute(schedule).db.advisory == Some(w)
  {
    InvAlways(schedule, RuleNode);
    var s := Execute(schedule);
    assert RequestOk(s.db, w, s.requests[w], RuleNode) && RequestOk(s.db, v, s.requests[v], RuleNode);
  }

  /** A terminal row never changes again, whatever is scheduled later. */
  lemma {:induction false} TerminalForever(schedule: seq<Action>, later: seq<Action>, e: Endpoint)
    requires Through(schedule + later, e)
    ensures RowGrew(Execute(schedule).db.row, Execute(schedule + later).db.row)
  {
    if later == [] {
      assert schedule + later == schedule;
    } else {
      var n := |later| - 1;
      var whole := schedule + later;
      assert whole[..|whole| - 1] == schedule + later[..n];
      assert Through(schedule + later[..n], e) by {
        assert forall i :: 0 <= i < |whole| - 1 ==> (schedule + later[..n])[i] == whole[i];
      }
      TerminalForever(schedule, later[..n], e);
      InvAlways(schedule + later[..n], e);
      assert whole[|whole| - 1] == later[n];
      InvStep(Execute(schedule + later[..n]), later[n], e);
    }
  }

  // ----- every delivery is answered -----

  lemma ExecuteMore(schedule: seq<Action>, a: Action)
    ensures Execute(schedule + [a]) == Apply(Execute(schedule), a)
  {
    assert (schedule + [a])[..|schedule|] == schedule;
  }

  lemma ThroughMore(schedule: seq<Action>, a: Action, e: Endpoint)
    requires Through(schedule, e) && (a.Begin? ==> a.endpoint == e)
    ensures Through(schedule + [a], e)
  {
  }

  /** The step a request takes next when nothing goes wrong; `o` is what the action answers. */
  function NextStep(pc: Pc, w: WorkerId, o: Outcome): Action {
    match pc
    case Looking => Look(w)
    case Inserting => Insert(w)
    case Refetching => Refetch(w)
    case Holding => CommitClaim(w)
    case Waiting => GetLock(w)
    case TimedOut => TimedOutRead(w)
    case Locked => Recheck(w)
    case Executing(_) => Run(w, o)
    case Finishing(_) => Finish(w, true)
    case Unlocking(_) => Unlock(w)
    case _ => CommitRequest(w)
  }

  function StepsLeft(pc: Pc): nat {
    match pc
    case Looking => 10
    case Inserting => 9
    case Refetching => 8
    case Holding => 7
    case Waiting => 6
    case Locked => 5
    case Executing(_) => 4
    case Finishing(_) => 3
    case Unlocking(_) => 2
    case TimedOut => 2
    case Returning(_) => 1
    case _ => 0
  }

  predicate Underway(pc: Pc) {
    !pc.Aborting? && !pc.Aborted? && !pc.Done?
  }

  /** Nobody but `w` has the row or the advisory lock. */
  predicate Undisturbed(db: Database, w: WorkerId) {
    (db.rowLock == None || db.rowLock == Some(w)) && (db.advisory == None || db.advisory == Some(w))
  }

  /** Request `w` has neither answered nor died, and nobody else holds what it needs. */
  predicate Awaits(s: State, w: WorkerId) {
    w in s.requests && Underway(s.requests[w].pc) && Undisturbed(s.db, w)
  }

  /** On a finished key the next step leads closer to the stored answer, and writes nothing. */
  lemma NextStepReplays(db: Database, w: WorkerId, x: Request, o: Outcome, e: Endpoint)
    requires DatabaseOk(db, e) && RequestOk(db, w, x, e)
    requires db.row == Terminal(o) && Undisturbed(db, w) && Underway(x.pc)
    ensures var (db', x') := Move(db, x, NextStep(x.pc, w, o));
      && db'.row == Terminal(o) && db'.history == db.history && Undisturbed(db', w) && x'.runs == 0
      && if x.pc.Returning? then x'.pc == Done(o) else Underway(x'.pc) && StepsLeft(x'.pc) < StepsLeft(x.pc)
  {
  }

  lemma NoRunOnFinished(db: Database, w: WorkerId, x: Request, o: Outcome, e: Endpoint)
    requires DatabaseOk(db, e) && RequestOk(db, w, x, e) && db.row == Terminal(o)
    ensures !x.pc.Executing? && !x.pc.Finishing? && !NextStep(x.pc, w, o).Begin?
  {
  }

  ghost predicate Replayed(s: State, t: State, w: WorkerId, o: Outcome) {
    && w in t.requests && t.requests[w].pc == Done(o) && t.requests[w].runs == 0
    && t.db.row == s.db.row && t.db.history == s.db.history
  }

  lemma ReplayStep(schedule: seq<Action>, e: Endpoint, w: WorkerId, o: Outcome)
    requires Through(schedule, e) && Awaits(Execute(schedule), w) && Execute(schedule).db.row == Terminal(o)
    ensures var s := Execute(schedule);
      var a := NextStep(s.requests[w].pc, w, o);
      var t := Execute(schedule + [a]);
      && a.w == w && !a.Run? && !a.Begin? && Through(schedule + [a], e) && w in t.requests
      && t.db.row == s.db.row && t.db.history == s.db.history
      && if s.requests[w].pc.Returning? then Replayed(s, t, w, o)
         else Awaits(t, w) && StepsLeft(t.requests[w].pc) < StepsLeft(s.requests[w].pc)
  {
    InvAlways(schedule, e);
    var s := Execute(schedule);
    var x := s.requests[w];
    assert RequestOk(s.db, w, x, e);
    NextStepReplays(s.db, w, x, o, e);
    NoRunOnFinished(s.db, w, x, o, e);
    ExecuteMore(schedule, NextStep(x.pc, w, o));
    ThroughMore(schedule, NextStep(x.pc, w, o), e);
  }

  /** Only steps of `w`, and no run of the action among them. */
  ghost predicate Replays(later: seq<Action>, w: WorkerId) {
    forall a :: a in later ==> a.w == w && !a.Run? && !a.Begin?
  }

  lemma ReplaysMore(a: Action, rest: seq<Action>, w: WorkerId)
    requires a.w == w && !a.Run? && !a.Begin? && Replays(rest, w)
    ensures Replays([a] + rest, w)
  {
  }

  lemma {:induction false} ReplaysToTheEnd(schedule: seq<Action>, e: Endpoint, w: WorkerId, o: Outcome)
    returns (later: seq<Action>)
    requires Through(schedule, e) && Awaits(Execute(schedule), w) && Execute(schedule).db.row == Terminal(o)
    ensures Replays(later, w) && Replayed(Execute(schedule), Execute(schedule + later), w, o)
    decreases StepsLeft(Execute(schedule).requests[w].pc)
  {
    ReplayStep(schedule, e, w, o);
    var a := NextStep(Execute(schedule).requests[w].pc, w, o);
    if Execute(schedule).requests[w].pc.Returning? {
      later := [a];
    } else {
      hide Execute, NextStep, StepsLeft, Through, Awaits, Replays;
      var rest := ReplaysToTheEnd(schedule + [a], e, w, o);
      ReplaysMore(a, rest, w);
      later := [a] + rest;
      assert schedule + later == schedule + [a] + rest;
    }
  }

  /** A request for a finished key is answered with the stored outcome as soon as no other
      request holds its locks, wherever it stands; the action is not run again. */
  lemma RedeliveryIsAnswered(schedule: seq<Action>, e: Endpoint, w: WorkerId, o: Outcome) returns (later: seq<Action>)
    requires Through(schedule, e) && Awaits(Execute(schedule), w) && Execute(schedule).db.row == Terminal(o)
    ensures forall a :: a in later ==> a.w == w && !a.Run? && !a.Begin?
    ensures var s, t := Execute(schedule), Execute(schedule + later);
      && w in t.requests && t.requests[w].pc == Done(o) && t.requests[w].runs == 0
      && t.db.row == s.db.row && t.db.history == s.db.history
  {
    later := ReplaysToTheEnd(schedule, e, w, o);
  }

  /** On an unfinished key the next step leads closer to a committed outcome. */
  lemma NextStepRuns(db: Database, w: WorkerId, x: Request, o: Outcome, e: Endpoint)
    requires DatabaseOk(db, e) && RequestOk(db, w, x, e)
    requires !db.row.Terminal? && Undisturbed(db, w) && Underway(x.pc) && !x.pc.TimedOut?
    ensures var (db', x') := Move(db, x, NextStep(x.pc, w, o));
      if x.pc.Returning? then
        x'.pc == Done(x.pc.outcome) && db'.row == Terminal(x.pc.outcome) && db'.history == [Commit(w, x.runs, x.pc.outcome)]
      else
        && !db'.row.Terminal? && Undisturbed(db', w) && Underway(x'.pc) && !x'.pc.TimedOut?
        && StepsLeft(x'.pc) < StepsLeft(x.pc)
        && (StepsLeft(x'.pc) < 4 ==>
              (x'.pc.Finishing? || x'.pc.Unlocking? || x'.pc.Returning?)
              && if x.pc.Executing? then x'.pc.outcome == o && x'.runs == 1
                 else x'.runs == x.runs && x'.pc.outcome == x.pc.outcome)
  {
  }

  predicate HasOutcome(pc: Pc) {
    pc.Finishing? || pc.Unlocking? || pc.Returning?
  }

  /** What request `w` will commit when the action, if still to be run, answers `o`. */
  function Commits(x: Request, w: WorkerId, o: Outcome): Commit {
    if HasOutcome(x.pc) then Commit(w, x.runs, x.pc.outcome) else Commit(w, 1, o)
  }

  lemma RunStep(schedule: seq<Action>, e: Endpoint, w: WorkerId, o: Outcome)
    requires Through(schedule, e) && Awaits(Execute(schedule), w) && !Execute(schedule).db.row.Terminal?
    requires !Execute(schedule).requests[w].pc.TimedOut?
    ensures var x := Execute(schedule).requests[w];
      var a := NextStep(x.pc, w, o);
      var t := Execute(schedule + [a]);
      && a.w == w && Through(schedule + [a], e) && w in t.requests
      && if x.pc.Returning? then
           t.requests[w].pc == Done(x.pc.outcome) && t.db.row == Terminal(x.pc.outcome) && t.db.history == [Commits(x, w, o)]
         else
           && Awaits(t, w) && !t.db.row.Terminal? && !t.requests[w].pc.TimedOut?
           && StepsLeft(t.requests[w].pc) < StepsLeft(x.pc) && Commits(t.requests[w], w, o) == Commits(x, w, o)
  {
    InvAlways(schedule, e);
    var s := Execute(schedule);
    var x := s.requests[w];
    assert RequestOk(s.db, w, x, e);
    NextStepRuns(s.db, w, x, o, e);
    ExecuteMore(schedule, NextStep(x.pc, w, o));
    ThroughMore(schedule, NextStep(x.pc, w, o), e);
  }

  lemma {:induction false} RunsToTheEnd(schedule: seq<Action>, e: Endpoint, w: WorkerId, o: Outcome)
    returns (later: seq<Action>)
    requires Through(schedule, e) && Awaits(Execute(schedule), w) && !Execute(schedule).db.row.Terminal?
    requires !Execute(schedule).requests[w].pc.TimedOut?
    ensures forall a :: a in later ==> a.w == w
    ensures var c, t := Commits(Execute(schedule).requests[w], w, o), Execute(schedule + later);
      && w in t.requests && t.requests[w].pc == Done(c.outcome) && t.db.row == Terminal(c.outcome) && t.db.history == [c]
    decreases StepsLeft(Execute(schedule).requests[w].pc)
  {
    RunStep(schedule, e, w, o);
    hide *;
    var x := Execute(schedule).requests[w];
    var a := NextStep(x.pc, w, o);
    later := [a];
    if !x.pc.Returning? {
      var rest := RunsToTheEnd(schedule + [a], e, w, o);
      later := [a] + rest;
      assert schedule + later == schedule + [a] + rest;
    }
  }

  /** A request for an unfinished key is answered as soon as no other request holds its locks:
      if it has not run the action yet, it runs it once and commits what the action answers. */
  lemma DeliveryIsAnswered(schedule: seq<Action>, e: Endpoint, w: WorkerId, o: Outcome)
    returns (later: seq<Action>, reply: Outcome)
    requires Through(schedule, e) && Awaits(Execute(schedule), w) && !Execute(schedule).db.row.Terminal?
    requires !Execute(schedule).requests[w].pc.TimedOut?
    ensures forall a :: a in later ==> a.w == w
    ensures var x, t := Execute(schedule).requests[w], Execute(schedule + later);
      && w in t.requests && t.requests[w].pc == Done(reply) && t.db.row == Terminal(reply)
      && if x.pc.Finishing? || x.pc.Unlocking? || x.pc.Returning? then
           reply == x.pc.outcome && t.db.history == [Commit(w, x.runs, reply)]
         else reply == o && t.db.history == [Commit(w, 1, o)]
  {
    later := RunsToTheEnd(schedule, e, w, o);
    reply := Commits(Execute(schedule).requests[w], w, o).outcome;
  }

  /** A conflict drops the uncommitted run; the third one in a row ends in a failed outcome. */
  lemma ConflictsAreRetried(schedule: seq<Action>, w: WorkerId, k: nat, body: nat)
    requires var s := Execute(schedule);
      w in s.requests && s.requests[w].endpoint == RuleNode && s.requests[w].pc == Executing(k)
    ensures var s, t := Execute(schedule), Execute(schedule + [Conflict(w, body)]);
      && w in t.requests && t.requests[w].runs == 0 && t.db.row == s.db.row && t.db.rowLock != Some(w)
      && t.requests[w].pc == if k < 3 then Executing(k + 1) else Finishing(Outcome(true, body))
  {
    ExecuteMore(schedule, Conflict(w, body));
    ConflictMoves(Execute(schedule).db, w, Execute(schedule).requests[w], k, body);
    hide Move, Execute;
  }

  lemma ConflictMoves(db: Database, w: WorkerId, x: Request, k: nat, body: nat)
    requires x.endpoint == RuleNode && x.pc == Executing(k)
    ensures Move(db, x, Conflict(w, body)) ==
      (RolledBack(db, w), x.(pc := if k < 3 then Executing(k + 1) else Finishing(Outcome(true, body)), runs := 0))
  {
  }

  lemma ReturningIsCommitted(schedule: seq<Action>, e: Endpoint, w: WorkerId, o: Outcome)
    requires Through(schedule, e)
    requires var s := Execute(schedule); w in s.requests && s.requests[w].pc == Returning(o) && s.db.row == Terminal(o)
    ensures var s, t := Execute(schedule), Execute(schedule + [CommitRequest(w)]);
      && w in t.requests && t.requests[w].pc == Done(o) && s.requests[w].runs == t.requests[w].runs == 0
      && t.db.row == s.db.row && t.db.history == s.db.history && t.db.advisory == s.db.advisory
  {
    InvAlways(schedule, e);
    assert RequestOk(Execute(schedule).db, w, Execute(schedule).requests[w], e);
    ExecuteMore(schedule, CommitRequest(w));
  }

  /** The answer comes at once where the stored outcome is read: from the snapshot, */
  lemma SnapshotIsAnswered(schedule: seq<Action>, e: Endpoint, w: WorkerId, o: Outcome)
    requires Through(schedule, e)
    requires var s := Execute(schedule);
      w in s.requests && s.requests[w].pc == Looking && s.requests[w].snap == Terminal(o)
    ensures var s, t := Execute(schedule), Execute(schedule + [Look(w)] + [CommitRequest(w)]);
      && w in t.requests && t.requests[w].pc == Done(o) && s.requests[w].runs == t.requests[w].runs == 0
      && t.db.row == s.db.row && t.db.history == s.db.history
  {
    InvAlways(schedule, e);
    var s := Execute(schedule);
    assert RequestOk(s.db, w, s.requests[w], e);
    assert RowGrew(s.requests[w].snap, s.db.row);
    ExecuteMore(schedule, Look(w));
    ThroughMore(schedule, Look(w), e);
    ReturningIsCommitted(schedule + [Look(w)], e, w, o);
  }

  lemma LockedRead(schedule: seq<Action>, e: Endpoint, w: WorkerId, o: Outcome, read: Action)
    requires Through(schedule, e) && (read == Refetch(w) || read == TimedOutRead(w) || read == Recheck(w))
    requires var s := Execute(schedule);
      && w in s.requests && s.requests[w].pc == (if read.Refetch? then Refetching else if read.Recheck? then Locked else TimedOut)
      && s.db.rowLock == None && s.db.row == Terminal(o)
    ensures var s, t := Execute(schedule), Execute(schedule + [read]);
      && Through(schedule + [read], e) && w in t.requests && s.requests[w].runs == t.requests[w].runs == 0
      && t.requests[w].pc == (if read.Recheck? then Unlocking(o) else Returning(o))
      && t.db.row == s.db.row && t.db.history == s.db.history && t.db.advisory == s.db.advisory
      && (read.Recheck? ==> t.db.advisory == Some(w))
  {
    InvAlways(schedule, e);
    assert RequestOk(Execute(schedule).db, w, Execute(schedule).requests[w], e);
    ExecuteMore(schedule, read);
    ThroughMore(schedule, read, e);
  }

  /** from the row whose duplicate was refused, or of a timed-out wait, when it is not locked, */
  lemma LockedReadIsAnswered(schedule: seq<Action>, e: Endpoint, w: WorkerId, o: Outcome)
    requires Through(schedule, e)
    requires var s := Execute(schedule);
      && w in s.requests && (s.requests[w].pc == Refetching || s.requests[w].pc == TimedOut)
      && s.db.rowLock == None && s.db.row == Terminal(o)
    ensures var s := Execute(schedule);
      var read := if s.requests[w].pc == Refetching then Refetch(w) else TimedOutRead(w);
      var t := Execute(schedule + [read] + [CommitRequest(w)]);
      && w in t.requests && t.requests[w].pc == Done(o) && s.requests[w].runs == t.requests[w].runs == 0
      && t.db.row == s.db.row && t.db.history == s.db.history
  {
    var read := if Execute(schedule).requests[w].pc == Refetching then Refetch(w) else TimedOutRead(w);
    LockedRead(schedule, e, w, o, read);
    ReturningIsCommitted(schedule + [read], e, w, o);
  }

  lemma UnlockGivesBack(schedule: seq<Action>, e: Endpoint, w: WorkerId, o: Outcome)
    requires Through(schedule, e)
    requires var s := Execute(schedule); w in s.requests && s.requests[w].pc == Unlocking(o) && s.db.advisory == Some(w)
    ensures var s, t := Execute(schedule), Execute(schedule + [Unlock(w)]);
      && Through(schedule + [Unlock(w)], e) && w in t.requests && s.requests[w].runs == t.requests[w].runs
      && t.requests[w].pc == Returning(o)
      && t.db.row == s.db.row && t.db.history == s.db.history && t.db.advisory == None
  {
    ExecuteMore(schedule, Unlock(w));
    ThroughMore(schedule, Unlock(w), e);
  }

  /** and from the row re-read under the advisory lock, which is given back. */
  lemma RecheckIsAnswered(schedule: seq<Action>, e: Endpoint, w: WorkerId, o: Outcome)
    requires Through(schedule, e)
    requires var s := Execute(schedule);
      w in s.requests && s.requests[w].pc == Locked && s.db.rowLock == None && s.db.row == Terminal(o)
    ensures var s, t := Execute(schedule), Execute(schedule + [Recheck(w)] + [Unlock(w)] + [CommitRequest(w)]);
      && w in t.requests && t.requests[w].pc == Done(o) && s.requests[w].runs == t.requests[w].runs == 0
      && t.db.row == s.db.row && t.db.history == s.db.history && t.db.advisory == None
  {
    LockedRead(schedule, e, w, o, Recheck(w));
    UnlockGivesBack(schedule + [Recheck(w)], e, w, o);
    ReturningIsCommitted(schedule + [Recheck(w)] + [Unlock(w)], e, w, o);
  }

  /** A request that waited for the advisory lock in vain answers what another worker has stored
      by then, and is refused when nothing is stored. */
  lemma WaitInVain(schedule: seq<Action>, e: Endpoint, w: WorkerId)
    requires Through(schedule, e)
    requires var s := Execute(schedule); w in s.requests && s.requests[w].pc == Waiting && s.db.rowLock == None
    ensures var s, t := Execute(schedule), Execute(schedule + [LockTimeout(w)] + [TimedOutRead(w)]);
      && w in t.requests && t.db.row == s.db.row && t.db.history == s.db.history
      && t.requests[w].pc == match s.db.row case Terminal(o) => Returning(o) case _ => Aborting
  {
    ExecuteMore(schedule, LockTimeout(w));
    ExecuteMore(schedule + [LockTimeout(w)], TimedOutRead(w));
    WaitingMoves(Execute(schedule).db, w, Execute(schedule).requests[w]);
    hide Move, Execute;
  }

  lemma DyingMoves(db: Database, w: WorkerId, x: Request)
    requires !x.pc.Done? && !x.pc.Aborted?
    ensures Move(db, x, Abort(w)) == (db, x.(pc := Aborting))
    ensures Move(db, x.(pc := Aborting), Rollback(w)) == (RolledBack(db, w), x.(pc := Aborted, runs := 0))
    ensures Move(RolledBack(db, w), x.(pc := Aborted, runs := 0), DropLock(w)) ==
      (LockReleased(RolledBack(db, w), w), x.(pc := Aborted, runs := 0))
  {
  }

  lemma WaitingMoves(db: Database, w: WorkerId, x: Request)
    requires x.pc == Waiting && db.rowLock == None
    ensures Move(db, x, LockTimeout(w)) == (db, x.(pc := TimedOut))
    ensures Move(db, x.(pc := TimedOut), TimedOutRead(w)) ==
      (db.(rowLock := Some(w)), x.(pc := match db.row case Terminal(o) => Returning(o) case _ => Aborting))
  {
  }

  /** A request may raise or die at any point before its end; it then gives both locks back, and
      nothing of it is left in the row. */
  lemma DeathFreesTheLocks(schedule: seq<Action>, w: WorkerId)
    requires var s := Execute(schedule); w in s.requests && !s.requests[w].pc.Done? && !s.requests[w].pc.Aborted?
    ensures var s, t := Execute(schedule), Execute(schedule + [Abort(w)] + [Rollback(w)] + [DropLock(w)]);
      && w in t.requests && t.requests[w].pc == Aborted && t.requests[w].runs == 0
      && t.db.row == s.db.row && t.db.history == s.db.history
      && t.db.rowLock == (if s.db.rowLock == Some(w) then None else s.db.rowLock)
      && t.db.advisory == (if s.db.advisory == Some(w) then None else s.db.advisory)
      && t.db.pending == (if s.db.rowLock == Some(w) then None else s.db.pending)
  {
    ExecuteMore(schedule, Abort(w));
    ExecuteMore(schedule + [Abort(w)], Rollback(w));
    ExecuteMore(schedule + [Abort(w)] + [Rollback(w)], DropLock(w));
    DyingMoves(Execute(schedule).db, w, Execute(schedule).requests[w]);
    hide Move, Execute;
  }

  lemma StepAfterEnd(s: State, a: Action, w: WorkerId)
    requires w in s.requests && (s.requests[w].pc.Done? || s.requests[w].pc.Aborted?)
    ensures w in Apply(s, a).requests && Apply(s, a).requests[w] == s.requests[w]
  {
  }

  /** An answer is final: a request that was answered or rolled back does nothing more. */
  lemma {:induction false} EndIsFinal(schedule: seq<Action>, later: seq<Action>, w: WorkerId)
    requires var s := Execute(schedule); w in s.requests && (s.requests[w].pc.Done? || s.requests[w].pc.Aborted?)
    ensures var s, t := Execute(schedule), Execute(schedule + later); w in t.requests && t.requests[w] == s.requests[w]
  {
    hide Move;
    if later == [] {
      assert schedule + later == schedule;
    } else {
      var whole, front := schedule + later, later[..|later| - 1];
      assert whole[..|whole| - 1] == schedule + front;
      EndIsFinal(schedule, front, w);
      StepAfterEnd(Execute(schedule + front), later[|later| - 1], w);
    }
  }

  // ----- two schedules -----

  ghost predicate Reachable(s: State) {
    exists schedule :: Execute(schedule) == s
  }

  lemma Reach(s: State, a: Action)
    requires Reachable(s)
    ensures Reachable(Apply(s, a))
  {
    var schedule :| Execute(schedule) == s;
    assert (schedule + [a])[..|schedule|] == schedule;
    assert Execute(schedule + [a]) == Apply(s, a);
  }

  function Solo(db: Database, x: Request): State {
    State(db, map[0 := x])
  }

  function Pair(db: Database, x: Request, y: Request): State {
    State(db, map[0 := x, 1 := y])
  }

  lemma SoloMoves(db: Database, x: Request, a: Action, db': Database, x': Request)
    requires Reachable(Solo(db, x)) && a.w == 0 && Move(db, x, a) == (db', x')
    ensures Reachable(Solo(db', x'))
  {
    Reach(Solo(db, x), a);
    assert Solo(db, x).requests[0 := x'] == map[0 := x'];
  }

  lemma FirstMoves(db: Database, x: Request, y: Request, a: Action, db': Database, x': Request)
    requires Reachable(Pair(db, x, y)) && a.w == 0 && Move(db, x, a) == (db', x')
    ensures Reachable(Pair(db', x', y))
  {
    Reach(Pair(db, x, y), a);
    assert Pair(db, x, y).requests[0 := x'] == map[0 := x', 1 := y];
  }

  lemma SecondMoves(db: Database, x: Request, y: Request, a: Action, db': Database, y': Request)
    requires Reachable(Pair(db, x, y)) && a.w == 1 && Move(db, y, a) == (db', y')
    ensures Reachable(Pair(db', x, y'))
  {
    Reach(Pair(db, x, y), a);
    assert Pair(db, x, y).requests[1 := y'] == map[0 := x, 1 := y'];
  }

  lemma SecondArrives(db: Database, x: Request, e: Endpoint)
    requires Reachable(Solo(db, x))
    ensures Reachable(Pair(db, x, Request(e, Looking, db.row, 0)))
  {
    Reach(Solo(db, x), Begin(1, e));
    assert Solo(db, x).requests[1 := Request(e, Looking, db.row, 0)] == map[0 := x, 1 := Request(e, Looking, db.row, 0)];
  }

  /** The first worker claimed the row and committed the claim. */
  lemma FirstClaim()
    ensures Reachable(Solo(Database(Claimed, None, None, None, []), Request(RuleNode, Waiting, Absent, 0)))
  {
    assert Reachable(Init()) by {
      assert Execute([]) == Init();
    }
    hide Reachable;
    Reach(Init(), Begin(0, RuleNode));
    var empty := Init().db;
    assert Apply(Init(), Begin(0, RuleNode)).requests == map[0 := Request(RuleNode, Looking, Absent, 0)];
    SoloMoves(empty, Request(RuleNode, Looking, Absent, 0), Look(0), empty, Request(RuleNode, Inserting, Absent, 0));
    var inserted := Database(Absent, Some(Claimed), Some(0), None, []);
    SoloMoves(empty, Request(RuleNode, Inserting, Absent, 0), Insert(0), inserted, Request(RuleNode, Holding, Absent, 0));
    SoloMoves(inserted, Request(RuleNode, Holding, Absent, 0), CommitClaim(0),
      Database(Claimed, None, None, None, []), Request(RuleNode, Waiting, Absent, 0));
  }

  /** It takes both locks, and a conflict retry costs it the row lock. */
  lemma FirstRetries()
    ensures Reachable(Solo(Database(Claimed, None, None, Some(0), []), Request(RuleNode, Executing(2), Absent, 0)))
  {
    hide Reachable;
    FirstClaim();
    var advisory := Database(Claimed, None, None, Some(0), []);
    var both := Database(Claimed, None, Some(0), Some(0), []);
    SoloMoves(Database(Claimed, None, None, None, []), Request(RuleNode, Waiting, Absent, 0), GetLock(0),
      advisory, Request(RuleNode, Locked, Absent, 0));
    SoloMoves(advisory, Request(RuleNode, Locked, Absent, 0), Recheck(0), both, Request(RuleNode, Executing(1), Absent, 0));
    SoloMoves(both, Request(RuleNode, Executing(1), Absent, 0), Conflict(0, 7),
      advisory, Request(RuleNode, Executing(2), Absent, 0));
  }

  /** It runs the action, writes the outcome and gives the advisory lock back. */
  lemma FirstRuns(o: Outcome)
    ensures Reachable(Solo(Database(Claimed, Some(Terminal(o)), Some(0), None, []), Request(RuleNode, Returning(o), Absent, 1)))
  {
    hide Reachable;
    FirstRetries();
    var advisory := Database(Claimed, None, None, Some(0), []);
    var written := Database(Claimed, Some(Terminal(o)), Some(0), Some(0), []);
    SoloMoves(advisory, Request(RuleNode, Executing(2), Absent, 0), Run(0, o),
      advisory, Request(RuleNode, Finishing(o), Absent, 1));
    SoloMoves(advisory, Request(RuleNode, Finishing(o), Absent, 1), Finish(0, true),
      written, Request(RuleNode, Unlocking(o), Absent, 1));
    SoloMoves(written, Request(RuleNode, Unlocking(o), Absent, 1), Unlock(0),
      written.(advisory := None), Request(RuleNode, Returning(o), Absent, 1));
  }

  /** The second worker gets the advisory lock and waits for the row; the first one dies. */
  lemma SecondTakesOver(o: Outcome)
    ensures Reachable(Pair(Database(Claimed, None, None, Some(1), []),
      Request(RuleNode, Aborted, Absent, 0), Request(RuleNode, Locked, Claimed, 0)))
  {
    hide Reachable;
    FirstRuns(o);
    var before := Database(Claimed, Some(Terminal(o)), Some(0), None, []);
    var during := before.(advisory := Some(1));
    var x, dying := Request(RuleNode, Returning(o), Absent, 1), Request(RuleNode, Aborting, Absent, 1);
    var locked := Request(RuleNode, Locked, Claimed, 0);
    SecondArrives(before, x, RuleNode);
    SecondMoves(before, x, Request(RuleNode, Looking, Claimed, 0), Look(1), before, Request(RuleNode, Holding, Claimed, 0));
    SecondMoves(before, x, Request(RuleNode, Holding, Claimed, 0), CommitClaim(1),
      before, Request(RuleNode, Waiting, Claimed, 0));
    SecondMoves(before, x, Request(RuleNode, Waiting, Claimed, 0), GetLock(1), during, locked);
    SecondMoves(during, x, locked, Recheck(1), during, locked);
    FirstMoves(during, x, locked, Abort(0), during, dying);
    FirstMoves(during, dying, locked, Rollback(0), Database(Claimed, None, None, Some(1), []),
      Request(RuleNode, Aborted, Absent, 0));
  }

  /** A crash after the action ran and after the advisory lock was given back loses the run;
      the worker that takes over runs it again and commits it once. */
  lemma CrashedRunIsReplaced(o: Outcome, p: Outcome)
    ensures Reachable(Pair(Database(Terminal(p), None, None, None, [Commit(1, 1, p)]),
      Request(RuleNode, Aborted, Absent, 0), Request(RuleNode, Done(p), Claimed, 0)))
  {
    hide Reachable;
    SecondTakesOver(o);
    var dead := Request(RuleNode, Aborted, Absent, 0);
    var advisory := Database(Claimed, None, None, Some(1), []);
    var both := Database(Claimed, None, Some(1), Some(1), []);
    var written := Database(Claimed, Some(Terminal(p)), Some(1), Some(1), []);
    SecondMoves(advisory, dead, Request(RuleNode, Locked, Claimed, 0), Recheck(1),
      both, Request(RuleNode, Executing(1), Claimed, 0));
    SecondMoves(both, dead, Request(RuleNode, Executing(1), Claimed, 0), Run(1, p),
      both, Request(RuleNode, Finishing(p), Claimed, 1));
    SecondMoves(both, dead, Request(RuleNode, Finishing(p), Claimed, 1), Finish(1, true),
      written, Request(RuleNode, Unlocking(p), Claimed, 1));
    SecondMoves(written, dead, Request(RuleNode, Unlocking(p), Claimed, 1), Unlock(1),
      written.(advisory := None), Request(RuleNode, Returning(p), Claimed, 1));
    CommitEnds(written.(advisory := None), 1, Request(RuleNode, Returning(p), Claimed, 1),
      Database(Terminal(p), None, None, None, [Commit(1, 1, p)]));
    SecondMoves(written.(advisory := None), dead, Request(RuleNode, Returning(p), Claimed, 1), CommitRequest(1),
      Database(Terminal(p), None, None, None, [Commit(1, 1, p)]), Request(RuleNode, Done(p), Claimed, 0));
  }

  /** While the first worker retries, `run_workflow_node` takes the claimed row for its own. */
  lemma WorkflowRunsToo(o: Outcome)
    ensures Reachable(Pair(Database(Terminal(o), None, None, Some(0), [Commit(1, 1, o)]),
      Request(RuleNode, Executing(2), Absent, 0), Request(WorkflowNode, Done(o), Claimed, 0)))
  {
    hide Reachable;
    FirstRetries();
    var retrying := Request(RuleNode, Executing(2), Absent, 0);
    var db := Database(Claimed, None, None, Some(0), []);
    var written := Database(Claimed, Some(Terminal(o)), Some(1), Some(0), []);
    SecondArrives(db, retrying, WorkflowNode);
    SecondMoves(db, retrying, Request(WorkflowNode, Looking, Claimed, 0), Look(1),
      db, Request(WorkflowNode, Executing(1), Claimed, 0));
    SecondMoves(db, retrying, Request(WorkflowNode, Executing(1), Claimed, 0), Run(1, o),
      db, Request(WorkflowNode, Finishing(o), Claimed, 1));
    SecondMoves(db, retrying, Request(WorkflowNode, Finishing(o), Claimed, 1), Finish(1, true),
      written, Request(WorkflowNode, Returning(o), Claimed, 1));
    CommitEnds(written, 1, Request(WorkflowNode, Returning(o), Claimed, 1),
      Database(Terminal(o), None, None, Some(0), [Commit(1, 1, o)]));
    SecondMoves(written, retrying, Request(WorkflowNode, Returning(o), Claimed, 1), CommitRequest(1),
      Database(Terminal(o), None, None, Some(0), [Commit(1, 1, o)]), Request(WorkflowNode, Done(o), Claimed, 0));
  }

  lemma CommitEnds(db: Database, w: WorkerId, x: Request, db': Database)
    requires x.pc.Returning? && db.rowLock == Some(w) && x.runs == 1
    requires db'.history == db.history + [Commit(w, 1, x.pc.outcome)]
    requires db' == Database(Current(db, w), None, None, db.advisory, db'.history)
    ensures Move(db, x, CommitRequest(w)) == (db', x.(pc := Done(x.pc.outcome), runs := 0))
  {
  }

  /** One endpoint per key is needed: a claimed row committed by `run_rule_node` is taken for
      its own by `run_workflow_node`, which holds no advisory lock. Here both run the action. */
  lemma SharedKeyRunsTwice(o: Outcome) returns (s: State)
    ensures Reachable(s) && s.db.history == [Commit(1, 1, o), Commit(0, 1, o)]
  {
    hide Reachable;
    WorkflowRunsToo(o);
    var y := Request(WorkflowNode, Done(o), Claimed, 0);
    var db := Database(Terminal(o), None, None, Some(0), [Commit(1, 1, o)]);
    var locked := db.(rowLock := Some(0));
    var last := Database(Terminal(o), None, None, None, [Commit(1, 1, o), Commit(0, 1, o)]);
    FirstMoves(db, Request(RuleNode, Executing(2), Absent, 0), y, Run(0, o), db, Request(RuleNode, Finishing(o), Absent, 1));
    FirstMoves(db, Request(RuleNode, Finishing(o), Absent, 1), y, Finish(0, true),
      locked, Request(RuleNode, Unlocking(o), Absent, 1));
    FirstMoves(locked, Request(RuleNode, Unlocking(o), Absent, 1), y, Unlock(0),
      locked.(advisory := None), Request(RuleNode, Returning(o), Absent, 1));
    CommitEnds(locked.(advisory := None), 0, Request(RuleNode, Returning(o), Absent, 1), last);
    FirstMoves(locked.(advisory := None), Request(RuleNode, Returning(o), Absent, 1), y, CommitRequest(0),
      last, Request(RuleNode, Done(o), Absent, 0));
    s := Pair(last, Request(RuleNode, Done(o), Absent, 0), y);
  }

  /** Every request of the schedule comes through one of the endpoints `es`. */
  ghost predicate Uses(schedule: seq<Action>, es: set<Endpoint>) {
    forall i :: 0 <= i < |schedule| && schedule[i].Begin? ==> schedule[i].endpoint in es
  }

  /** How often the action ran in the transactions that committed. */
  function TotalRuns(history: seq<Commit>): nat {
    if history == [] then 0 else history[0].runs + TotalRuns(history[1..])
  }

  /** With the endpoints `es` for one key, no schedule ever commits two runs of the action. */
  ghost predicate RunsOnce(es: set<Endpoint>) {
    forall schedule :: Uses(schedule, es) ==> TotalRuns(Execute(schedule).db.history) <= 1
  }

  /** No schedule has two commits that ran the action or made the row terminal. */
  ghost predicate CommitsOnce(es: set<Endpoint>) {
    forall schedule :: Uses(schedule, es) ==> |Execute(schedule).db.history| <= 1
  }

  lemma BothEndpointsRunTwice(es: set<Endpoint>) returns (schedule: seq<Action>)
    requires RuleNode in es && WorkflowNode in es
    ensures Uses(schedule, es)
    ensures TotalRuns(Execute(schedule).db.history) == 2 && |Execute(schedule).db.history| == 2
  {
    var o := Outcome(false, 0);
    var s := SharedKeyRunsTwice(o);
    schedule :| Execute(schedule) == s;
    forall i | 0 <= i < |schedule| && schedule[i].Begin? ensures schedule[i].endpoint in es {
      assert schedule[i].endpoint.RuleNode? || schedule[i].endpoint.WorkflowNode?;
    }
    assert s.db.history[1..] == [Commit(0, 1, o)];
    assert TotalRuns([Commit(0, 1, o)]) == 1;
  }

  lemma OneEndpointRunsOnce(es: set<Endpoint>, schedule: seq<Action>)
    requires !(RuleNode in es && WorkflowNode in es) && Uses(schedule, es)
    ensures TotalRuns(Execute(schedule).db.history) <= 1 && |Execute(schedule).db.history| <= 1
  {
    var e := if RuleNode in es then RuleNode else WorkflowNode;
    forall i | 0 <= i < |schedule| && schedule[i].Begin? ensures schedule[i].endpoint == e {
      assert schedule[i].endpoint.RuleNode? || schedule[i].endpoint.WorkflowNode?;
    }
    AtMostOneCommittedRun(schedule, e);
  }

  /** The action of a key is committed at most once, on every schedule, exactly when the key is
      not used through both endpoints; and exactly then at most one commit ends the key. */
  lemma CommitsOnceIffOneEndpoint(es: set<Endpoint>)
    ensures RunsOnce(es) <==> !(RuleNode in es && WorkflowNode in es)
    ensures CommitsOnce(es) <==> !(RuleNode in es && WorkflowNode in es)
  {
    if RuleNode in es && WorkflowNode in es {
      var schedule := BothEndpointsRunTwice(es);
    } else {
      forall schedule: seq<Action> | Uses(schedule, es)
        ensures TotalRuns(Execute(schedule).db.history) <= 1 && |Execute(schedule).db.history| <= 1
      {
        OneEndpointRunsOnce(es, schedule);
      }
    }
  }
}
