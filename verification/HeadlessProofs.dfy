/** What every step of the headless client keeps, and what that means for whole runs. */
module HeadlessProofs {
  import opened EventLog
  import opened HeadlessClient

  // ----- the invariant

  predicate InLoop(pc: Pc) {
    pc.Subscribing? || pc.Waiting? || pc.Handling? || pc.Snapshotting? || pc.Resubscribing? ||
    pc.Checking? || pc.Listing? || pc.Repairing?
  }

  /** Every terminal event of the run lies strictly after the cursor. */
  ghost predicate Ahead(h: Handle, r: Runtime, cursor: nat) {
    forall p :: TerminalAt(r.log, h.run, p) ==> cursor < p
  }

  ghost predicate CursorInv(h: Handle, r: Runtime, cursor: nat, pc: Pc) {
    && RuntimeOk(h.run, r)
    && h.start <= |r.log|
    && Ahead(h, r, h.start)
    && cursor <= |r.log|
    && match pc {
         case Accepted => cursor == h.start
         case Subscribing => cursor == h.start
         case Waiting => Ahead(h, r, cursor)
         case Handling(position) =>
           1 <= position == cursor && forall p :: TerminalAt(r.log, h.run, p) ==> cursor <= p
         case Snapshotting => Ahead(h, r, cursor)
         case Resubscribing(at) => cursor <= at <= |r.log| && Ahead(h, r, cursor)
         case Listing => Ahead(h, r, cursor)
         case Repairing(_, holds) =>
           Ahead(h, r, cursor) && forall hold | hold in holds :: HoldRecorded(r.log, hold)
         case Settling(stage, _) =>
           && (stage.SettleResubscribe? ==> stage.at <= |r.log|)
           && (stage.SettleWait? ==> Ahead(h, r, cursor))
         case _ => true
       }
  }

  /** A pending call of the run's session tree, of a descendant session or of this run itself, raised after `from`. */
  ghost predicate InTree(h: Handle, r: Runtime, hold: Hold, from: nat) {
    && hold.call.id in r.holds && r.holds[hold.call.id] == hold
    && from < hold.position
    && hold.call.session in r.family
    && (hold.call.session == h.session ==> hold.call.run == h.run)
  }

  ghost predicate Responded(c: Client, position: nat) {
    exists i :: 0 <= i < |c.sent.responses| && c.sent.responses[i].position == position
  }

  /** The hold cannot be stranded: its event is still to come, or it was answered, or the run was cancelled. */
  ghost predicate Covered(c: Client, hold: Hold) {
    c.cursor < hold.position || Responded(c, hold.position) || c.sent.cancelAccepted
  }

  /** The same, where the step in progress may still be about to answer it. */
  ghost predicate CoveredAt(c: Client, hold: Hold) {
    match c.pc
    case Handling(position) => Covered(c, hold) || hold.position == position
    case Checking => true
    case Listing => true
    case Repairing(sessions, holds) =>
      Covered(c, hold) || hold in holds || hold.call.session in sessions
    case _ => Covered(c, hold)
  }

  ghost predicate HoldsInv(h: Handle, s: State, from: nat) {
    InLoop(s.client.pc) || s.client.pc.Accepted? ==>
      forall hold | InTree(h, s.rt, hold, from) :: CoveredAt(s.client, hold)
  }

  /** From the moment recovery has listed the sessions, holds older than the start cursor count as well. */
  ghost predicate SweepInv(h: Handle, s: State) {
    s.client.pc.Repairing? ==> HoldsInv(h, s, 0)
  }

  /** A call without preview is denied, a question gets an empty answer, and only root calls under Full are approved. */
  function Policy(h: Handle, call: Call, question: bool, previewed: bool): Decision {
    if !previewed then Deny
    else if question then Answer
    else if h.approval.Full? && call.session == h.session then ApproveOnce
    else Deny
  }

  /** A response goes to a logged request and carries the decision the policy gives. */
  ghost predicate ResponseOk(h: Handle, log: seq<Envelope>, response: Response) {
    && 1 <= response.position <= |log|
    && log[response.position - 1].event.ApprovalRequested?
    && log[response.position - 1].event.call == response.call
    && response.decision ==
         Policy(h, response.call, log[response.position - 1].event.question, response.previewed)
  }

  ghost predicate PolicyInv(h: Handle, s: State) {
    forall i | 0 <= i < |s.client.sent.responses| :: ResponseOk(h, s.rt.log, s.client.sent.responses[i])
  }

  function Count(b: bool): nat { if b then 1 else 0 }

  ghost predicate CancelInv(c: Client) {
    && (c.flags.interruptArmed ==> !c.flags.interrupted)
    && (c.pc.Accepted? ==>
          && c.sent.cancels == 0 && !c.sent.cancelAccepted
          && !c.flags.interrupted && !c.flags.needsInput && !c.flags.shutdownArmed)
    && (InLoop(c.pc) || c.pc.Accepted? ==>
          && c.flags.shutdownArmed == c.sent.cancelAccepted == (c.flags.interrupted || c.flags.needsInput)
          && c.sent.cancels == c.sent.loopCancels == Count(c.flags.interrupted) + Count(c.flags.needsInput))
    && c.sent.loopCancels <= 2
  }

  ghost predicate GuardInv(c: Client) {
    && (InLoop(c.pc) || c.pc.Accepted? ==> c.guard.armed && !c.guard.detached && !c.guard.resultRead)
    && (c.pc.Settling? ==>
          && (c.guard.armed != c.guard.detached)
          && (!c.pc.stage.Cancelling? ==> c.sent.cancels >= 1))
    && (c.pc.Ending? || c.pc.Returning? ==>
          !c.guard.detached && (c.guard.armed || c.guard.resultRead || c.sent.cancels >= 1))
  }

  /** One trial, then events with strictly increasing positions, each as the log has it. */
  ghost predicate Ordered(log: seq<Envelope>, records: seq<Record>) {
    && (records != [] ==> records[0] == Trial)
    && (forall i | 1 <= i < |records| ::
          && records[i].EventRecord?
          && 1 <= records[i].position <= |log|
          && records[i].envelope == log[records[i].position - 1])
    && (forall i, j | 1 <= i < j < |records| :: records[i].position < records[j].position)
  }

  ghost predicate RecordedUpTo(records: seq<Record>, n: nat) {
    forall i | 1 <= i < |records| :: records[i].EventRecord? ==> records[i].position <= n
  }

  ghost predicate RecordedBefore(h: Handle, log: seq<Envelope>, records: seq<Record>) {
    forall i, p | 1 <= i < |records| && records[i].EventRecord? && TerminalAt(log, h.run, p) ::
      records[i].position < p
  }

  /** The run's own terminal event is the last event record, and no earlier one. */
  ghost predicate EndsWithTerminal(h: Handle, log: seq<Envelope>, records: seq<Record>) {
    && |records| >= 2
    && Ordered(log, records)
    && TerminalAt(log, h.run, records[|records| - 1].position)
    && RecordedBefore(h, log, records[..|records| - 1])
  }

  ghost predicate Complete(h: Handle, log: seq<Envelope>, records: seq<Record>, status: Status) {
    && |records| >= 3
    && records[|records| - 1] == OutcomeRecord(status)
    && EndsWithTerminal(h, log, records[..|records| - 1])
  }

  /** Between events: everything recorded is at or before the cursor, and before the terminal event. */
  ghost predicate LoopTrace(h: Handle, log: seq<Envelope>, cursor: nat, records: seq<Record>) {
    records != [] && Ordered(log, records) && RecordedUpTo(records, cursor) && RecordedBefore(h, log, records)
  }

  /** An event was just recorded and is being handled. */
  ghost predicate HandlingTrace(log: seq<Envelope>, position: nat, records: seq<Record>) {
    && |records| >= 2
    && Ordered(log, records)
    && records[|records| - 1].position == position
    && RecordedUpTo(records[..|records| - 1], position - 1)
  }

  ghost predicate ReadTrace(h: Handle, log: seq<Envelope>, pc: Pc, status: Status, records: seq<Record>) {
    EndsWithTerminal(h, log, records) || (!pc.Ending? && Complete(h, log, records, status))
  }

  ghost predicate TraceInv(h: Handle, log: seq<Envelope>, pc: Pc, cursor: nat, guard: Guard, records: seq<Record>) {
    if pc.Accepted? then records == []
    else if pc.Handling? then pc.position >= 1 && HandlingTrace(log, pc.position, records)
    else if InLoop(pc) then LoopTrace(h, log, cursor, records)
    else guard.resultRead ==> !guard.armed && !pc.Settling? && ReadTrace(h, log, pc, guard.status, records)
  }

  /** The exit status is what the durable terminal event says, or a failure of the harness. */
  ghost predicate StatusInv(h: Handle, s: State) {
    var c := s.client;
    c.guard.status.HarnessFailure? ||
    (c.guard.resultRead &&
     exists p :: TerminalAt(s.rt.log, h.run, p) &&
                 c.guard.status == FinishStatus(s.rt.log[p - 1].event, c.flags.needsInput, c.flags.interrupted))
  }

  ghost predicate Inv(h: Handle, s: State) {
    && CursorInv(h, s.rt, s.client.cursor, s.client.pc)
    && HoldsInv(h, s, h.start)
    && SweepInv(h, s)
    && CancelInv(s.client)
    && GuardInv(s.client)
    && PolicyInv(h, s)
    && TraceInv(h, s.rt.log, s.client.pc, s.client.cursor, s.client.guard, s.client.records)
    && StatusInv(h, s)
  }

  // ----- the runtime's own steps

  lemma {:induction false} EnvironmentKeepsCursor(h: Handle, s: State, change: Change)
    requires CursorInv(h, s.rt, s.client.cursor, s.client.pc) && Allowed(h.run, s.rt, change)
    ensures CursorInv(h, Evolve(s.rt, change), s.client.cursor, s.client.pc)
  {
    EvolveKeepsRuntimeOk(h.run, s.rt, change);
  }

  lemma {:induction false} EnvironmentKeepsHolds(h: Handle, s: State, change: Change, from: nat)
    requires CursorInv(h, s.rt, s.client.cursor, s.client.pc) && HoldsInv(h, s, from) && Allowed(h.run, s.rt, change)
    ensures HoldsInv(h, s.(rt := Evolve(s.rt, change)), from)
  {
    var r := Evolve(s.rt, change);
    forall hold | InTree(h, r, hold, from)
      ensures InTree(h, s.rt, hold, from) || |s.rt.log| < hold.position
    {
    }
  }

  lemma {:induction false} EnvironmentKeepsTrace(h: Handle, s: State, change: Change)
    requires CursorInv(h, s.rt, s.client.cursor, s.client.pc) && Allowed(h.run, s.rt, change)
    requires TraceInv(h, s.rt.log, s.client.pc, s.client.cursor, s.client.guard, s.client.records)
    ensures TraceInv(h, Evolve(s.rt, change).log, s.client.pc, s.client.cursor, s.client.guard, s.client.records)
  {
    EvolveKeepsRuntimeOk(h.run, s.rt, change);
  }

  lemma {:induction false} EnvironmentKeepsStatus(h: Handle, s: State, change: Change)
    requires RuntimeOk(h.run, s.rt) && PolicyInv(h, s) && StatusInv(h, s) && Allowed(h.run, s.rt, change)
    ensures PolicyInv(h, s.(rt := Evolve(s.rt, change)))
    ensures StatusInv(h, s.(rt := Evolve(s.rt, change)))
  {
    EvolveKeepsRuntimeOk(h.run, s.rt, change);
  }

  // ----- the client's steps

  lemma RespondCovers(c: Client, position: nat, call: Call, previewed: bool, decision: Decision, next: Pc)
    ensures Responded(Respond(c, position, call, previewed, decision, next), position)
    ensures forall q :: Responded(c, q) ==> Responded(Respond(c, position, call, previewed, decision, next), q)
  {
    var d := Respond(c, position, call, previewed, decision, next);
    assert d.sent.responses[|c.sent.responses|].position == position;
    forall q | Responded(c, q)
      ensures Responded(d, q)
    {
      var i :| 0 <= i < |c.sent.responses| && c.sent.responses[i].position == q;
      assert d.sent.responses[i].position == q;
    }
  }

  /** The delivered request is answered, or its question cancels the run. */
  lemma {:induction false} ReactKeepsHolds(h: Handle, s: State, ok: bool, from: nat)
    requires LoopEnabled(s.rt, s.client, React(ok))
    requires CursorInv(h, s.rt, s.client.cursor, s.client.pc) && HoldsInv(h, s, from) && CancelInv(s.client)
    ensures HoldsInv(h, s.(client := LoopStep(h, s.rt, s.client, React(ok))), from)
  {
    var c := s.client;
    var e := s.rt.log[c.pc.position - 1];
    match e.event
    case ApprovalRequested(call, question) =>
      RespondCovers(c, c.pc.position, call, true, if question then Answer else UnattendedDecision(h, call), Waiting);
      forall hold | InTree(h, s.rt, hold, from) && hold.position == c.pc.position
        ensures e == RequestEnvelope(hold.call, hold.question)
      {
      }
    case RunFinished(run, _, _) =>
      forall hold | InTree(h, s.rt, hold, from)
        ensures hold.position != c.pc.position
      {
        assert HoldRecorded(s.rt.log, hold);
      }
    case Progress =>
      forall hold | InTree(h, s.rt, hold, from)
        ensures hold.position != c.pc.position
      {
        assert HoldRecorded(s.rt.log, hold);
      }
  }

  lemma {:induction false} ReceivedTrace(h: Handle, r: Runtime, cursor: nat, records: seq<Record>)
    requires cursor < |r.log| && LoopTrace(h, r.log, cursor, records)
    ensures HandlingTrace(r.log, cursor + 1, records + [EventRecord(cursor + 1, r.log[cursor])])
  {
    var more := records + [EventRecord(cursor + 1, r.log[cursor])];
    assert more[..|more| - 1] == records;
  }

  /** Recovery records the receipt of a run that finished in the gap: it follows every recorded event. */
  lemma {:induction false} ReceiptTrace(h: Handle, r: Runtime, cursor: nat, records: seq<Record>)
    requires LoopTrace(h, r.log, cursor, records)
    ensures var p := TerminalPosition(r.log, h.run);
            p != 0 ==> EndsWithTerminal(h, r.log, records + [EventRecord(p, r.log[p - 1])])
  {
    var p := TerminalPosition(r.log, h.run);
    if p != 0 {
      var more := records + [EventRecord(p, r.log[p - 1])];
      assert more[..|more| - 1] == records;
      forall i | 1 <= i < |records|
        ensures records[i].position < p
      {
      }
    }
  }

  lemma {:induction false} HandledTrace(h: Handle, r: Runtime, position: nat, records: seq<Record>)
    requires RuntimeOk(h.run, r) && 1 <= position <= |r.log| && HandlingTrace(r.log, position, records)
    requires forall p :: TerminalAt(r.log, h.run, p) ==> position <= p
    ensures if TerminalAt(r.log, h.run, position) then EndsWithTerminal(h, r.log, records)
            else LoopTrace(h, r.log, position, records)
  {
    if !TerminalAt(r.log, h.run, position) {
      forall i | 1 <= i < |records|
        ensures records[i].position <= position
      {
      }
    }
  }

  lemma {:induction false} ReceiveKeepsTrace(h: Handle, s: State, ok: bool)
    requires LoopEnabled(s.rt, s.client, Receive(ok))
    requires TraceInv(h, s.rt.log, s.client.pc, s.client.cursor, s.client.guard, s.client.records) && GuardInv(s.client)
    ensures var c := LoopStep(h, s.rt, s.client, Receive(ok)); TraceInv(h, s.rt.log, c.pc, c.cursor, c.guard, c.records)
  {
    ReceivedTrace(h, s.rt, s.client.cursor, s.client.records);
  }

  lemma {:induction false} ReceiptIsTraced(
    h: Handle, r: Runtime, cursor: nat, guard: Guard, before: seq<Record>, records: seq<Record>)
    requires LoopTrace(h, r.log, cursor, before) && !guard.armed
    requires var p := TerminalPosition(r.log, h.run); p != 0 && records == before + [EventRecord(p, r.log[p - 1])]
    ensures TraceInv(h, r.log, Ending, cursor, guard, records)
  {
    ReceiptTrace(h, r, cursor, before);
  }

  lemma {:induction false} CheckKeepsTrace(h: Handle, s: State, ok: bool)
    requires RecoveryEnabled(s.rt, s.client, Check(ok))
    requires TraceInv(h, s.rt.log, s.client.pc, s.client.cursor, s.client.guard, s.client.records) && GuardInv(s.client)
    ensures var c := RecoveryStep(h, s.rt, s.client, Check(ok));
            TraceInv(h, s.rt.log, c.pc, c.cursor, c.guard, c.records)
  {
    if ok && TerminalPosition(s.rt.log, h.run) != 0 {
      var c := RecoveryStep(h, s.rt, s.client, Check(ok));
      ReceiptIsTraced(h, s.rt, s.client.cursor, c.guard, s.client.records, c.records);
    }
  }

  lemma {:induction false} ReactKeepsTrace(h: Handle, s: State, ok: bool)
    requires LoopEnabled(s.rt, s.client, React(ok))
    requires CursorInv(h, s.rt, s.client.cursor, s.client.pc) && GuardInv(s.client)
    requires TraceInv(h, s.rt.log, s.client.pc, s.client.cursor, s.client.guard, s.client.records)
    ensures var c := LoopStep(h, s.rt, s.client, React(ok)); TraceInv(h, s.rt.log, c.pc, c.cursor, c.guard, c.records)
  {
    HandledTrace(h, s.rt, s.client.pc.position, s.client.records);
    match s.rt.log[s.client.pc.position - 1].event
    case ApprovalRequested(_, _) =>
    case RunFinished(_, _, _) =>
    case Progress =>
  }

  lemma {:induction false} ReactKeepsStatus(h: Handle, s: State, ok: bool)
    requires LoopEnabled(s.rt, s.client, React(ok))
    requires CursorInv(h, s.rt, s.client.cursor, s.client.pc)
    requires PolicyInv(h, s) && StatusInv(h, s) && GuardInv(s.client)
    ensures PolicyInv(h, s.(client := LoopStep(h, s.rt, s.client, React(ok))))
    ensures StatusInv(h, s.(client := LoopStep(h, s.rt, s.client, React(ok))))
  {
    match s.rt.log[s.client.pc.position - 1].event
    case ApprovalRequested(call, question) =>
    case RunFinished(run, _, _) =>
      assert run == h.run ==> TerminalAt(s.rt.log, h.run, s.client.pc.position);
    case Progress =>
  }

  /** A pending hold found by recovery is answered, or cancels the run, or belongs to another run. */
  lemma {:induction false} RepairKeepsHolds(h: Handle, s: State, found: bool, ok: bool, from: nat)
    requires RecoveryEnabled(s.rt, s.client, Repair(found, ok))
    requires HoldsInv(h, s, from) && CancelInv(s.client)
    ensures HoldsInv(h, s.(client := RecoveryStep(h, s.rt, s.client, Repair(found, ok))), from)
  {
    var c := s.client;
    var hold := c.pc.holds[0];
    var next := Repairing(c.pc.sessions, c.pc.holds[1..]);
    RespondCovers(c, hold.position, hold.call, true, Answer, next);
    RespondCovers(c, hold.position, hold.call, false, Deny, next);
    RespondCovers(c, hold.position, hold.call, true, UnattendedDecision(h, hold.call), next);
    forall other | other in c.pc.holds
      ensures other == hold || other in c.pc.holds[1..]
    {
    }
  }

  lemma {:induction false} LoopKeepsCursor(h: Handle, s: State, a: LoopAction)
    requires LoopEnabled(s.rt, s.client, a) && CursorInv(h, s.rt, s.client.cursor, s.client.pc)
    ensures var c := LoopStep(h, s.rt, s.client, a); CursorInv(h, s.rt, c.cursor, c.pc)
  {
  }

  lemma {:induction false} LoopKeepsHolds(h: Handle, s: State, a: LoopAction, from: nat)
    requires LoopEnabled(s.rt, s.client, a) && CursorInv(h, s.rt, s.client.cursor, s.client.pc)
    requires HoldsInv(h, s, from) && CancelInv(s.client)
    ensures HoldsInv(h, s.(client := LoopStep(h, s.rt, s.client, a)), from)
  {
    match a
    case React(ok) => ReactKeepsHolds(h, s, ok, from);
    case _ =>
  }

  lemma {:induction false} LoopKeepsCancel(h: Handle, s: State, a: LoopAction)
    requires LoopEnabled(s.rt, s.client, a) && CancelInv(s.client)
    ensures CancelInv(LoopStep(h, s.rt, s.client, a))
  {
    if a.React? {
      match s.rt.log[s.client.pc.position - 1].event
      case ApprovalRequested(_, _) =>
      case RunFinished(_, _, _) =>
      case Progress =>
    }
  }

  lemma {:induction false} LoopKeepsGuard(h: Handle, s: State, a: LoopAction)
    requires LoopEnabled(s.rt, s.client, a) && GuardInv(s.client)
    ensures GuardInv(LoopStep(h, s.rt, s.client, a))
  {
    if a.React? {
      match s.rt.log[s.client.pc.position - 1].event
      case ApprovalRequested(_, _) =>
      case RunFinished(_, _, _) =>
      case Progress =>
    }
  }

  lemma {:induction false} LoopKeepsTrace(h: Handle, s: State, a: LoopAction)
    requires LoopEnabled(s.rt, s.client, a)
    requires CursorInv(h, s.rt, s.client.cursor, s.client.pc) && GuardInv(s.client)
    requires TraceInv(h, s.rt.log, s.client.pc, s.client.cursor, s.client.guard, s.client.records)
    ensures var c := LoopStep(h, s.rt, s.client, a); TraceInv(h, s.rt.log, c.pc, c.cursor, c.guard, c.records)
  {
    match a
    case React(ok) => ReactKeepsTrace(h, s, ok);
    case Receive(ok) => ReceiveKeepsTrace(h, s, ok);
    case _ =>
  }

  lemma {:induction false} LoopKeepsStatus(h: Handle, s: State, a: LoopAction)
    requires LoopEnabled(s.rt, s.client, a) && CursorInv(h, s.rt, s.client.cursor, s.client.pc)
    requires PolicyInv(h, s) && StatusInv(h, s) && GuardInv(s.client)
    ensures PolicyInv(h, s.(client := LoopStep(h, s.rt, s.client, a)))
    ensures StatusInv(h, s.(client := LoopStep(h, s.rt, s.client, a)))
  {
    match a
    case React(ok) => ReactKeepsStatus(h, s, ok);
    case _ =>
  }

  lemma {:induction false} RecoveryKeepsCursor(h: Handle, s: State, a: RecoveryAction)
    requires RecoveryEnabled(s.rt, s.client, a) && CursorInv(h, s.rt, s.client.cursor, s.client.pc)
    ensures var c := RecoveryStep(h, s.rt, s.client, a); CursorInv(h, s.rt, c.cursor, c.pc)
  {
  }

  lemma {:induction false} RecoveryKeepsHolds(h: Handle, s: State, a: RecoveryAction, from: nat)
    requires RecoveryEnabled(s.rt, s.client, a) && CursorInv(h, s.rt, s.client.cursor, s.client.pc)
    requires HoldsInv(h, s, from) && CancelInv(s.client)
    ensures HoldsInv(h, s.(client := RecoveryStep(h, s.rt, s.client, a)), from)
  {
    match a
    case Repair(found, ok) => RepairKeepsHolds(h, s, found, ok, from);
    case _ =>
  }

  lemma {:induction false} RecoveryKeepsCancel(h: Handle, s: State, a: RecoveryAction)
    requires RecoveryEnabled(s.rt, s.client, a) && CancelInv(s.client)
    ensures CancelInv(RecoveryStep(h, s.rt, s.client, a))
  {
  }

  lemma {:induction false} RecoveryKeepsGuard(h: Handle, s: State, a: RecoveryAction)
    requires RecoveryEnabled(s.rt, s.client, a) && GuardInv(s.client)
    ensures GuardInv(RecoveryStep(h, s.rt, s.client, a))
  {
  }

  lemma {:induction false} RecoveryKeepsTrace(h: Handle, s: State, a: RecoveryAction)
    requires RecoveryEnabled(s.rt, s.client, a)
    requires CursorInv(h, s.rt, s.client.cursor, s.client.pc) && GuardInv(s.client)
    requires TraceInv(h, s.rt.log, s.client.pc, s.client.cursor, s.client.guard, s.client.records)
    ensures var c := RecoveryStep(h, s.rt, s.client, a); TraceInv(h, s.rt.log, c.pc, c.cursor, c.guard, c.records)
  {
    match a
    case Check(ok) => CheckKeepsTrace(h, s, ok);
    case _ =>
  }

  lemma {:induction false} RecoveryKeepsStatus(h: Handle, s: State, a: RecoveryAction)
    requires RecoveryEnabled(s.rt, s.client, a) && CursorInv(h, s.rt, s.client.cursor, s.client.pc)
    requires PolicyInv(h, s) && StatusInv(h, s) && GuardInv(s.client)
    ensures PolicyInv(h, s.(client := RecoveryStep(h, s.rt, s.client, a)))
    ensures StatusInv(h, s.(client := RecoveryStep(h, s.rt, s.client, a)))
  {
    match a
    case Repair(_, _) =>
      assert s.client.pc.holds[0] in s.client.pc.holds;
    case _ =>
  }

  lemma {:induction false} SettleKeepsCursor(h: Handle, s: State, a: SettleAction)
    requires SettleEnabled(s.rt, s.client, a) && CursorInv(h, s.rt, s.client.cursor, s.client.pc)
    ensures var c := SettleStep(h, s.rt, s.client, a); CursorInv(h, s.rt, c.cursor, c.pc)
  {
  }

  lemma {:induction false} SettleKeepsHolds(h: Handle, s: State, a: SettleAction, from: nat)
    requires SettleEnabled(s.rt, s.client, a) && CursorInv(h, s.rt, s.client.cursor, s.client.pc)
    requires HoldsInv(h, s, from) && CancelInv(s.client)
    ensures HoldsInv(h, s.(client := SettleStep(h, s.rt, s.client, a)), from)
  {
  }

  lemma {:induction false} SettleKeepsCancel(h: Handle, s: State, a: SettleAction)
    requires SettleEnabled(s.rt, s.client, a) && CancelInv(s.client)
    ensures CancelInv(SettleStep(h, s.rt, s.client, a))
  {
  }

  lemma {:induction false} SettleKeepsGuard(h: Handle, s: State, a: SettleAction)
    requires SettleEnabled(s.rt, s.client, a) && GuardInv(s.client)
    ensures GuardInv(SettleStep(h, s.rt, s.client, a))
  {
  }

  lemma {:induction false} SettleKeepsTrace(h: Handle, s: State, a: SettleAction)
    requires SettleEnabled(s.rt, s.client, a)
    requires CursorInv(h, s.rt, s.client.cursor, s.client.pc) && GuardInv(s.client)
    requires TraceInv(h, s.rt.log, s.client.pc, s.client.cursor, s.client.guard, s.client.records)
    ensures var c := SettleStep(h, s.rt, s.client, a); TraceInv(h, s.rt.log, c.pc, c.cursor, c.guard, c.records)
  {
  }

  lemma {:induction false} SettleKeepsStatus(h: Handle, s: State, a: SettleAction)
    requires SettleEnabled(s.rt, s.client, a) && CursorInv(h, s.rt, s.client.cursor, s.client.pc)
    requires PolicyInv(h, s) && StatusInv(h, s) && GuardInv(s.client)
    ensures PolicyInv(h, s.(client := SettleStep(h, s.rt, s.client, a)))
    ensures StatusInv(h, s.(client := SettleStep(h, s.rt, s.client, a)))
  {
  }

  lemma {:induction false} ExitKeepsCursor(h: Handle, s: State, a: ExitAction)
    requires ExitEnabled(s.client, a) && CursorInv(h, s.rt, s.client.cursor, s.client.pc)
    ensures var c := ExitStep(s.client, a); CursorInv(h, s.rt, c.cursor, c.pc)
  {
  }

  lemma {:induction false} ExitKeepsHolds(h: Handle, s: State, a: ExitAction, from: nat)
    requires ExitEnabled(s.client, a) && CursorInv(h, s.rt, s.client.cursor, s.client.pc)
    requires HoldsInv(h, s, from) && CancelInv(s.client)
    ensures HoldsInv(h, s.(client := ExitStep(s.client, a)), from)
  {
  }

  lemma {:induction false} ExitKeepsGuard(h: Handle, s: State, a: ExitAction)
    requires ExitEnabled(s.client, a) && CancelInv(s.client) && GuardInv(s.client)
    ensures CancelInv(ExitStep(s.client, a)) && GuardInv(ExitStep(s.client, a))
  {
  }

  lemma {:induction false} ExitKeepsTrace(h: Handle, s: State, a: ExitAction)
    requires ExitEnabled(s.client, a)
    requires CursorInv(h, s.rt, s.client.cursor, s.client.pc) && GuardInv(s.client)
    requires TraceInv(h, s.rt.log, s.client.pc, s.client.cursor, s.client.guard, s.client.records)
    ensures var c := ExitStep(s.client, a); TraceInv(h, s.rt.log, c.pc, c.cursor, c.guard, c.records)
  {
  }

  lemma {:induction false} ExitKeepsStatus(h: Handle, s: State, a: ExitAction)
    requires ExitEnabled(s.client, a) && CursorInv(h, s.rt, s.client.cursor, s.client.pc)
    requires PolicyInv(h, s) && StatusInv(h, s) && GuardInv(s.client)
    ensures PolicyInv(h, s.(client := ExitStep(s.client, a)))
    ensures StatusInv(h, s.(client := ExitStep(s.client, a)))
  {
  }
}
