/**
 The headless client: from an accepted run to process exit. Every `await` of the source is a
 boundary between two actions here, and the runtime may change at each boundary.
 */
module HeadlessClient {
  import opened Options
  import opened EventLog

  datatype Approval = ReadOnly | Ask | Auto | Full
  datatype Decision = ApproveOnce | Deny | Answer

  datatype Status =
    | StatusCompleted
    | TaskFailed
    | HarnessFailure
    | StatusBudgetExhausted
    | TimedOut
    | StatusInterrupted
    | NeedsInput

  /** `start` is the cursor the run was submitted after. */
  datatype Handle = Handle(approval: Approval, session: SessionId, run: RunId, start: nat)

  datatype Record =
    | Trial
    | EventRecord(position: nat, envelope: Envelope)
    | OutcomeRecord(status: Status)

  /** A RespondToolApproval command: the position of the request it answers, and whether the client saw a preview. */
  datatype Response = Response(position: nat, call: Call, previewed: bool, decision: Decision)

  datatype Stage =
    | Cancelling
    | Observing
    | SettleSnapshot
    | SettleResubscribe(at: nat)
    | SettleCheck
    | SettleWait

  datatype Pc =
    | Accepted
    | Subscribing
    | Waiting
    | Handling(position: nat)
    | Snapshotting
    | Resubscribing(at: nat)
    | Checking
    | Listing
    | Repairing(sessions: seq<SessionId>, holds: seq<Hold>)
    | Settling(stage: Stage, reports: bool)
    | Ending
    | Returning
    | Exited

  /** The loop's own variables. */
  datatype Flags = Flags(
    interruptArmed: bool,
    interrupted: bool,
    needsInput: bool,
    shutdownArmed: bool,
    recovered: bool,
    steering: bool)

  /** The accepted-run guard, and how the invocation came to its end. */
  datatype Guard = Guard(armed: bool, detached: bool, resultRead: bool, status: Status)

  /** What was sent to the runtime: approval responses, and CancelRun requests with those of the loop apart. */
  datatype Sent = Sent(responses: seq<Response>, cancels: nat, loopCancels: nat, cancelAccepted: bool)

  datatype Client = Client(pc: Pc, cursor: nat, flags: Flags, guard: Guard, sent: Sent, records: seq<Record>)

  datatype State = State(rt: Runtime, client: Client)

  // In every action, `ok` is false when the awaited call, or the write that goes with it, fails.

  datatype LoopAction =
    | Subscribe(ok: bool)
    | Interrupt(ok: bool)
    | Steer(closed: bool)
    | Deadline
    | Receive(ok: bool)
    | CursorExpired
    | StreamFails
    | React(ok: bool)

  datatype RecoveryAction =
    | Snapshot(ok: bool)
    | Resubscribe(ok: bool)
    | Check(ok: bool)
    | ListSessions(ok: bool, sessions: seq<SessionId>)
    | Inspect(ok: bool, holds: seq<Hold>)
    | Repair(found: bool, ok: bool)
    | Resume

  datatype SettleAction =
    | SettleCancel(ok: bool)
    | SettleSubscribe(ok: bool)
    | SettleTakeSnapshot(ok: bool)
    | SettleAttach(ok: bool)
    | SettleProbe(ok: bool)
    | SettleReceive
    | SettleExpired
    | SettleFails

  datatype ExitAction =
    | WriteTrial(ok: bool)
    | WriteOutcome(ok: bool)
    | Return(live: bool)
    | Drop(live: bool)

  datatype Action =
    | Environment(change: Change)
    | Loop(loop: LoopAction)
    | Recovery(recovery: RecoveryAction)
    | Settlement(settlement: SettleAction)
    | Exit(exit: ExitAction)

  // ----- decisions

  function Ours(h: Handle, e: Envelope): bool {
    e.session == h.session && e.run == Some(h.run)
  }

  /** The unattended policy: a descendant's call never gets more than Auto. */
  function UnattendedDecision(h: Handle, call: Call): Decision {
    var approval := if h.approval.Ask? || call.session == h.session then h.approval else Auto;
    if approval.Full? then ApproveOnce else Deny
  }

  function SettleOutcome(outcome: RunOutcome, interrupted: bool): Status {
    match outcome
    case Completed => StatusCompleted
    case Failed(server) => if server then HarnessFailure else TaskFailed
    case BudgetExhausted(duration) => if duration then TimedOut else StatusBudgetExhausted
    case Cancelled => if interrupted then StatusInterrupted else HarnessFailure
    case Paused => TaskFailed
    case Interrupted => HarnessFailure
  }

  function SettleStatus(outcome: RunOutcome, output: Option<FinalOutput>, interrupted: bool): Status {
    if outcome.Completed? && output == Some(Invalid) then TaskFailed
    else if outcome.Completed? then StatusCompleted
    else SettleOutcome(outcome, interrupted)
  }

  function FinishStatus(e: Event, needsInput: bool, interrupted: bool): Status
    requires e.RunFinished?
  {
    if needsInput && e.outcome.Cancelled? then NeedsInput
    else SettleStatus(e.outcome, e.output, interrupted)
  }

  // ----- pieces of a step

  function Respond(c: Client, position: nat, call: Call, previewed: bool, decision: Decision, next: Pc): Client {
    c.(sent := c.sent.(responses := c.sent.responses + [Response(position, call, previewed, decision)]), pc := next)
  }

  /** The loop gives up: the accepted-run guard settles before anything is reported. */
  function Fail(c: Client): Client {
    c.(pc := Settling(Cancelling, true), guard := c.guard.(status := HarnessFailure))
  }

  /** CancelRun from inside the loop. An accepted request arms the shutdown deadline. */
  function LoopCancel(c: Client, flags: Flags, ok: bool, next: Pc): Client {
    var sent := c.sent.(cancels := c.sent.cancels + 1, loopCancels := c.sent.loopCancels + 1);
    if ok then c.(pc := next, flags := flags.(shutdownArmed := true), sent := sent.(cancelAccepted := true))
    else Fail(c.(flags := flags, sent := sent))
  }

  /** The durable result was read: finish_run's status, and the guard is disarmed. */
  function Finish(c: Client, e: Event): Client
    requires e.RunFinished?
  {
    c.(pc := Ending,
       guard := c.guard.(armed := false, resultRead := true,
                         status := FinishStatus(e, c.flags.needsInput, c.flags.interrupted)))
  }

  function ReactTo(h: Handle, c: Client, position: nat, e: Envelope, ok: bool): Client {
    match e.event
    case ApprovalRequested(call, question) =>
      if question && Ours(h, e) then
        if c.flags.needsInput then c.(pc := Waiting)
        else LoopCancel(c, c.flags.(needsInput := true), ok, Waiting)
      else if question then
        if e.run.Some? then Respond(c, position, call, true, Answer, Waiting) else c.(pc := Waiting)
      else
        Respond(c, position, call, true, UnattendedDecision(h, call), Waiting)
    case RunFinished(run, _, _) =>
      if run != h.run then c.(pc := Waiting)
      else if ok then Finish(c, e.event)
      else Fail(c)
    case Progress => c.(pc := Waiting)
  }

  /** One pending hold of a recovery snapshot; `found` tells whether the snapshot has its call. */
  function RepairHold(h: Handle, c: Client, hold: Hold, next: Pc, found: bool, ok: bool): Client {
    if !found then Fail(c)
    else if hold.call.session == h.session && hold.call.run != h.run then c.(pc := next)
    else if hold.preview && hold.question then
      if hold.call.session != h.session then Respond(c, hold.position, hold.call, true, Answer, next)
      else if c.flags.needsInput then c.(pc := next)
      else LoopCancel(c, c.flags.(needsInput := true), ok, next)
    else if hold.preview then
      Respond(c, hold.position, hold.call, true, UnattendedDecision(h, hold.call), next)
    else
      Respond(c, hold.position, hold.call, false, Deny, next)
  }

  /** cancel_and_settle is over; `ok` tells whether it saw the run settle. */
  function Settled(c: Client, reports: bool, ok: bool): Client {
    if c.guard.detached then c.(pc := Exited)
    else c.(guard := c.guard.(armed := !ok), pc := if reports then Ending else Returning)
  }

  /** The guard is dropped: an armed one settles in a detached task, if a runtime is there. */
  function DropGuard(c: Client, live: bool): Client {
    if !c.guard.armed then c.(pc := Exited)
    else if live then c.(guard := c.guard.(armed := false, detached := true), pc := Settling(Cancelling, false))
    else c.(guard := c.guard.(armed := false), pc := Exited)
  }

  function TerminalPosition(log: seq<Envelope>, run: RunId): (p: nat)
    ensures p == 0 ==> !Finished(log, run)
    ensures p != 0 ==> TerminalAt(log, run, p)
  {
    if log == [] then 0
    else
      var q := TerminalPosition(log[..|log| - 1], run);
      if q != 0 then q
      else if TerminalAt(log, run, |log|) then |log|
      else
        assert forall p :: TerminalAt(log, run, p) ==> TerminalAt(log[..|log| - 1], run, p);
        0
  }

  // ----- the event loop

  /** A subscription reads ahead, so an event taken off it may have expired since. */
  predicate LoopEnabled(r: Runtime, c: Client, a: LoopAction) {
    match a
    case Subscribe(_) => c.pc.Subscribing?
    case Interrupt(_) => c.pc.Waiting? && c.flags.interruptArmed
    case Steer(_) => c.pc.Waiting? && c.flags.steering
    case Deadline => c.pc.Waiting? && c.flags.shutdownArmed
    case Receive(_) => c.pc.Waiting? && c.cursor < |r.log|
    case CursorExpired => c.pc.Waiting? && CursorExpires(r, c.cursor)
    case StreamFails => c.pc.Waiting?
    case React(_) => c.pc.Handling? && 1 <= c.pc.position <= |r.log|
  }

  function LoopStep(h: Handle, r: Runtime, c: Client, a: LoopAction): Client
    requires LoopEnabled(r, c, a)
  {
    match a
    case Subscribe(ok) => if ok then c.(cursor := h.start, pc := Waiting) else Fail(c)
    case Interrupt(ok) => LoopCancel(c, c.flags.(interruptArmed := false, interrupted := true), ok, Waiting)
    case Steer(closed) => c.(flags := c.flags.(steering := !closed))
    case Deadline => Fail(c)
    case Receive(ok) =>
      var p := c.cursor + 1;
      var moved := c.(cursor := p);
      if ok then moved.(records := c.records + [EventRecord(p, r.log[p - 1])], pc := Handling(p))
      else Fail(moved)
    case CursorExpired => c.(flags := c.flags.(recovered := true), pc := Snapshotting)
    case StreamFails => Fail(c)
    case React(ok) => ReactTo(h, c, c.pc.position, r.log[c.pc.position - 1], ok)
  }

  // ----- recovery after an expired cursor

  ghost predicate RecoveryEnabled(r: Runtime, c: Client, a: RecoveryAction) {
    match a
    case Snapshot(_) => c.pc.Snapshotting?
    case Resubscribe(_) => c.pc.Resubscribing?
    case Check(_) => c.pc.Checking?
    case ListSessions(_, sessions) => c.pc.Listing? && ListsHeld(r, sessions)
    case Inspect(_, holds) =>
      c.pc.Repairing? && c.pc.holds == [] && c.pc.sessions != [] && HoldsOf(r, c.pc.sessions[0], holds)
    case Repair(_, _) => c.pc.Repairing? && c.pc.holds != []
    case Resume => c.pc.Repairing? && c.pc.sessions == [] && c.pc.holds == []
  }

  /** approval_sessions: the sessions of the tree with a call awaiting approval, in some order. */
  ghost predicate ListsHeld(r: Runtime, sessions: seq<SessionId>) {
    forall session :: session in sessions <==>
      session in r.family && exists id :: id in r.holds && r.holds[id].call.session == session
  }

  /** The pending holds in one session's snapshot, in some order. */
  ghost predicate HoldsOf(r: Runtime, session: SessionId, holds: seq<Hold>) {
    forall hold :: hold in holds <==>
      hold.call.id in r.holds && r.holds[hold.call.id] == hold && hold.call.session == session
  }

  function RecoveryStep(h: Handle, r: Runtime, c: Client, a: RecoveryAction): Client
    requires RecoveryEnabled(r, c, a)
  {
    match a
    case Snapshot(ok) => if ok then c.(pc := Resubscribing(|r.log|)) else Fail(c)
    case Resubscribe(ok) => if ok then c.(cursor := c.pc.at, pc := Checking) else Fail(c)
    case Check(ok) =>
      var p := TerminalPosition(r.log, h.run);
      if !ok then Fail(c)
      else if p == 0 then c.(pc := Listing)
      else Finish(c.(records := c.records + [EventRecord(p, r.log[p - 1])]), r.log[p - 1].event)
    case ListSessions(ok, sessions) => if ok then c.(pc := Repairing(sessions, [])) else Fail(c)
    case Inspect(ok, holds) => if ok then c.(pc := Repairing(c.pc.sessions[1..], holds)) else Fail(c)
    case Repair(found, ok) =>
      RepairHold(h, c, c.pc.holds[0], Repairing(c.pc.sessions, c.pc.holds[1..]), found, ok)
    case Resume => c.(pc := Waiting)
  }

  // ----- cancel_and_settle

  predicate SettleEnabled(r: Runtime, c: Client, a: SettleAction) {
    c.pc.Settling? &&
    match a
    case SettleCancel(_) => c.pc.stage.Cancelling?
    case SettleSubscribe(_) => c.pc.stage.Observing?
    case SettleTakeSnapshot(_) => c.pc.stage.SettleSnapshot?
    case SettleAttach(_) => c.pc.stage.SettleResubscribe?
    case SettleProbe(_) => c.pc.stage.SettleCheck?
    case SettleReceive => c.pc.stage.SettleWait? && c.cursor < |r.log|
    case SettleExpired => c.pc.stage.SettleWait? && CursorExpires(r, c.cursor)
    case SettleFails => !c.pc.stage.Cancelling? && !c.pc.stage.Observing?
  }

  function SettleStep(h: Handle, r: Runtime, c: Client, a: SettleAction): Client
    requires SettleEnabled(r, c, a)
  {
    var reports := c.pc.reports;
    match a
    case SettleCancel(ok) =>
      var tried := c.(sent := c.sent.(cancels := c.sent.cancels + 1));
      if ok then tried.(pc := Settling(Observing, reports)) else Settled(tried, reports, false)
    case SettleSubscribe(ok) =>
      if ok then c.(cursor := h.start, pc := Settling(SettleSnapshot, reports)) else Settled(c, reports, false)
    case SettleTakeSnapshot(ok) =>
      if ok then c.(pc := Settling(SettleResubscribe(|r.log|), reports)) else Settled(c, reports, false)
    case SettleAttach(ok) =>
      if ok then c.(cursor := c.pc.stage.at, pc := Settling(SettleCheck, reports)) else Settled(c, reports, false)
    case SettleProbe(ok) =>
      if !ok then Settled(c, reports, false)
      else if TerminalPosition(r.log, h.run) != 0 then Settled(c, reports, true)
      else c.(pc := Settling(SettleWait, reports))
    case SettleReceive =>
      var moved := c.(cursor := c.cursor + 1);
      if TerminalAt(r.log, h.run, moved.cursor) then Settled(moved, reports, true) else moved
    case SettleExpired => c.(pc := Settling(SettleSnapshot, reports))
    case SettleFails => Settled(c, reports, false)
  }

  // ----- entry, reporting and exit

  predicate ExitEnabled(c: Client, a: ExitAction) {
    match a
    case WriteTrial(_) => c.pc.Accepted?
    case WriteOutcome(_) => c.pc.Ending?
    case Return(_) => c.pc.Returning?
    case Drop(_) => !c.pc.Exited? && !c.guard.detached
  }

  function ExitStep(c: Client, a: ExitAction): Client
    requires ExitEnabled(c, a)
  {
    match a
    case WriteTrial(ok) =>
      if ok then c.(records := c.records + [Trial], pc := Subscribing)
      else c.(pc := Settling(Cancelling, false), guard := c.guard.(status := HarnessFailure))
    case WriteOutcome(ok) =>
      if ok then c.(records := c.records + [OutcomeRecord(c.guard.status)], pc := Returning)
      else c.(guard := c.guard.(status := HarnessFailure), pc := Returning)
    case Return(live) => DropGuard(c, live)
    case Drop(live) => DropGuard(c, live)
  }

  // ----- the whole system

  ghost predicate Enabled(h: Handle, s: State, a: Action) {
    match a
    case Environment(change) => Allowed(h.run, s.rt, change)
    case Loop(b) => LoopEnabled(s.rt, s.client, b)
    case Recovery(b) => RecoveryEnabled(s.rt, s.client, b)
    case Settlement(b) => SettleEnabled(s.rt, s.client, b)
    case Exit(b) => ExitEnabled(s.client, b)
  }

  function Step(h: Handle, s: State, a: Action): State
    requires Enabled(h, s, a)
  {
    match a
    case Environment(change) => s.(rt := Evolve(s.rt, change))
    case Loop(b) => s.(client := LoopStep(h, s.rt, s.client, b))
    case Recovery(b) => s.(client := RecoveryStep(h, s.rt, s.client, b))
    case Settlement(b) => s.(client := SettleStep(h, s.rt, s.client, b))
    case Exit(b) => s.(client := ExitStep(s.client, b))
  }

  /** The run has just been accepted; nothing of it is at or before the cursor it was submitted after. */
  ghost predicate Init(h: Handle, s: State) {
    && RuntimeOk(h.run, s.rt)
    && h.start <= |s.rt.log|
    && (forall p :: TerminalAt(s.rt.log, h.run, p) ==> h.start < p)
    && h.session in s.rt.family
    && s.client.pc == Accepted
    && s.client.cursor == h.start
    && s.client.flags == Flags(true, false, false, false, false, s.client.flags.steering)
    && s.client.guard == Guard(true, false, false, HarnessFailure)
    && s.client.sent == Sent([], 0, 0, false)
    && s.client.records == []
  }

  /** Consecutive steps of the whole system, in any interleaving of client and runtime. */
  ghost predicate Execution(h: Handle, states: seq<State>, actions: seq<Action>) {
    && |states| == |actions| + 1
    && forall i | 0 <= i < |actions| ::
         Enabled(h, states[i], actions[i]) && states[i + 1] == Step(h, states[i], actions[i])
  }

  ghost predicate Behavior(h: Handle, states: seq<State>, actions: seq<Action>) {
    Execution(h, states, actions) && Init(h, states[0])
  }
}
