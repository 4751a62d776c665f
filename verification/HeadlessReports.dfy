/** What the headless client remembers of a run while it follows it, and what it reports at the end. */
module HeadlessReports {
  import opened Options
  import opened EventLog
  import opened HeadlessClient
  import opened HeadlessProofs
  import opened HeadlessTheorems

  // ----- the loop's flags

  ghost predicate Happened(actions: seq<Action>, i: nat, a: Action)
    requires i <= |actions|
  {
    exists k :: 0 <= k < i && actions[k] == a
  }

  /** In the loop each flag tells exactly what has happened so far. */
  ghost predicate FlagsTell(actions: seq<Action>, i: nat, steered: bool, c: Client)
    requires i <= |actions|
  {
    InLoop(c.pc) || c.pc.Accepted? ==>
      && (c.flags.recovered <==> Happened(actions, i, Loop(CursorExpired)))
      && (c.flags.interrupted <==> Happened(actions, i, Loop(Interrupt(true))))
      && (c.flags.interruptArmed <==> !c.flags.interrupted)
      && (c.flags.steering <==> steered && !Happened(actions, i, Loop(Steer(true))))
  }

  lemma {:induction false} StepKeepsFlags(h: Handle, states: seq<State>, actions: seq<Action>, i: nat, steered: bool)
    requires Execution(h, states, actions) && i < |actions|
    requires FlagsTell(actions, i, steered, states[i].client)
    ensures FlagsTell(actions, i + 1, steered, states[i + 1].client)
  {
    forall a: Action
      ensures Happened(actions, i + 1, a) <==> Happened(actions, i, a) || actions[i] == a
    {
    }
    var c, d := states[i].client, states[i + 1].client;
    match actions[i]
    case Loop(b) => LoopFlags(h, states[i].rt, c, b);
    case Recovery(b) => RecoveryFlags(h, states[i].rt, c, b);
    case Settlement(b) => SettlementLeavesLoop(h, states[i].rt, c, b);
    case _ =>
  }

  lemma {:induction false} LoopFlags(h: Handle, r: Runtime, c: Client, a: LoopAction)
    requires LoopEnabled(r, c, a)
    ensures var d := LoopStep(h, r, c, a);
            InLoop(d.pc) ==>
              && InLoop(c.pc) && !d.pc.Accepted?
              && d.flags.recovered == (c.flags.recovered || a.CursorExpired?)
              && d.flags.interrupted == (c.flags.interrupted || a == Interrupt(true))
              && d.flags.interruptArmed == (c.flags.interruptArmed && a != Interrupt(true))
              && d.flags.steering == (c.flags.steering && a != Steer(true))
    ensures !LoopStep(h, r, c, a).pc.Accepted?
  {
    if a.React? {
      match r.log[c.pc.position - 1].event
      case ApprovalRequested(_, _) =>
      case RunFinished(_, _, _) =>
      case Progress =>
    }
  }

  lemma {:induction false} RecoveryFlags(h: Handle, r: Runtime, c: Client, a: RecoveryAction)
    requires RecoveryEnabled(r, c, a)
    ensures var d := RecoveryStep(h, r, c, a);
            && InLoop(c.pc) && !d.pc.Accepted?
            && (InLoop(d.pc) ==>
                  && d.flags.recovered == c.flags.recovered && d.flags.interrupted == c.flags.interrupted
                  && d.flags.interruptArmed == c.flags.interruptArmed && d.flags.steering == c.flags.steering)
  {
  }

  /** Recovered, interrupted, armed and steering flags are exact at every point of the loop. */
  lemma {:induction false} LoopFlagsTell(h: Handle, states: seq<State>, actions: seq<Action>, i: nat)
    requires Behavior(h, states, actions) && i < |states|
    ensures FlagsTell(actions, i, states[0].client.flags.steering, states[i].client)
  {
    if i > 0 {
      LoopFlagsTell(h, states, actions, i - 1);
      StepKeepsFlags(h, states, actions, i - 1, states[0].client.flags.steering);
    }
  }

  // ----- the records, however the run ends

  /** A trial first, events after it, and an outcome at most as the last record. */
  ghost predicate Shaped(records: seq<Record>) {
    && (records != [] ==> records[0].Trial?)
    && (forall i | 1 <= i < |records| - 1 :: records[i].EventRecord?)
    && (|records| >= 2 ==> !records[|records| - 1].Trial?)
  }

  /** No outcome is there before it is written, and what is returned after it was written or is a failure. */
  ghost predicate ReportInv(c: Client) {
    && Shaped(c.records)
    && (c.pc.Accepted? ==> c.records == [])
    && (InLoop(c.pc) || c.pc.Ending? || (c.pc.Settling? && c.pc.reports) ==>
          c.records != [] && !c.records[|c.records| - 1].OutcomeRecord?)
    && (c.pc.Settling? && !c.pc.reports && !c.guard.detached ==> c.records == [])
    && (c.pc.Returning? ==>
          || c.guard.status.HarnessFailure?
          || (c.records != [] && c.records[|c.records| - 1] == OutcomeRecord(c.guard.status)))
  }

  lemma {:induction false} LoopReports(h: Handle, r: Runtime, c: Client, a: LoopAction)
    requires LoopEnabled(r, c, a) && ReportInv(c) && GuardInv(c)
    ensures ReportInv(LoopStep(h, r, c, a))
  {
    if a.React? {
      match r.log[c.pc.position - 1].event
      case ApprovalRequested(_, _) =>
      case RunFinished(_, _, _) =>
      case Progress =>
    }
  }

  lemma {:induction false} RecoveryReports(h: Handle, r: Runtime, c: Client, a: RecoveryAction)
    requires RecoveryEnabled(r, c, a) && ReportInv(c) && GuardInv(c)
    ensures ReportInv(RecoveryStep(h, r, c, a))
  {
  }

  lemma {:induction false} SettlementReports(h: Handle, r: Runtime, c: Client, a: SettleAction)
    requires SettleEnabled(r, c, a) && ReportInv(c) && GuardInv(c)
    requires !c.guard.resultRead ==> c.guard.status.HarnessFailure?
    requires c.guard.resultRead ==> !c.guard.armed
    ensures ReportInv(SettleStep(h, r, c, a))
  {
  }

  lemma {:induction false} ExitReports(c: Client, a: ExitAction)
    requires ExitEnabled(c, a) && ReportInv(c) && GuardInv(c)
    ensures ReportInv(ExitStep(c, a))
  {
  }

  lemma {:induction false} BehaviorReports(h: Handle, states: seq<State>, actions: seq<Action>, i: nat)
    requires Behavior(h, states, actions) && i < |states|
    ensures ReportInv(states[i].client)
  {
    if i > 0 {
      var s := states[i - 1];
      BehaviorReports(h, states, actions, i - 1);
      BehaviorKeepsInv(h, states, actions, i - 1);
      match actions[i - 1]
      case Environment(_) =>
      case Loop(b) => LoopReports(h, s.rt, s.client, b);
      case Recovery(b) => RecoveryReports(h, s.rt, s.client, b);
      case Settlement(b) => SettlementReports(h, s.rt, s.client, b);
      case Exit(b) => ExitReports(s.client, b);
    }
  }

  /** However an invocation returns, its status is the outcome it wrote, or a failure of the harness. */
  lemma {:induction false} ReturnedStatusWasWritten(h: Handle, states: seq<State>, actions: seq<Action>, i: nat)
    requires Behavior(h, states, actions) && i < |states|
    ensures Shaped(states[i].client.records)
    ensures states[i].client.pc.Returning? && !states[i].client.guard.status.HarnessFailure? ==>
              var records := states[i].client.records;
              records != [] && records[|records| - 1] == OutcomeRecord(states[i].client.guard.status)
  {
    BehaviorReports(h, states, actions, i);
  }

  // ----- giving up

  /** The step tries to cancel the run, or to report its result: only then does a failure of `ok` matter. */
  predicate NeedsReply(h: Handle, c: Client, e: Envelope) {
    || ( && e.event.ApprovalRequested? && e.event.question && !c.flags.needsInput
         && e.session == h.session && e.run == Some(h.run))
    || (e.event.RunFinished? && e.event.run == h.run)
  }

  /** What goes wrong in the loop: the grace is over, the stream is lost, or a call that is awaited fails. */
  predicate LoopStepFails(h: Handle, r: Runtime, c: Client, a: LoopAction)
    requires LoopEnabled(r, c, a)
  {
    match a
    case Deadline => true
    case StreamFails => true
    case Steer(_) => false
    case CursorExpired => false
    case React(ok) => !ok && NeedsReply(h, c, r.log[c.pc.position - 1])
    case _ => !a.ok
  }

  predicate RecoveryStepFails(h: Handle, r: Runtime, c: Client, a: RecoveryAction)
    requires RecoveryEnabled(r, c, a)
  {
    match a
    case Resume => false
    case Repair(found, ok) =>
      var hold := c.pc.holds[0];
      !found || ( && !ok && !c.flags.needsInput && hold.preview && hold.question
                  && hold.call.session == h.session && hold.call.run == h.run)
    case _ => !a.ok
  }

  /** The loop gives up on exactly those, and goes on to cancel the run and report. */
  lemma {:induction false} LoopGivesUpIff(h: Handle, r: Runtime, c: Client, a: LoopAction)
    requires LoopEnabled(r, c, a)
    ensures LoopStepFails(h, r, c, a) <==> LoopStep(h, r, c, a).pc == Settling(Cancelling, true)
    ensures LoopStepFails(h, r, c, a) <==> LoopStep(h, r, c, a).pc.Settling?
  {
    if a.React? {
      match r.log[c.pc.position - 1].event
      case ApprovalRequested(_, _) =>
      case RunFinished(_, _, _) =>
      case Progress =>
    }
  }

  lemma {:induction false} RecoveryGivesUpIff(h: Handle, r: Runtime, c: Client, a: RecoveryAction)
    requires RecoveryEnabled(r, c, a)
    ensures RecoveryStepFails(h, r, c, a) <==> RecoveryStep(h, r, c, a).pc == Settling(Cancelling, true)
    ensures RecoveryStepFails(h, r, c, a) <==> RecoveryStep(h, r, c, a).pc.Settling?
  {
  }

  /** A record that cannot be written, and a loop that fails, make the status a failure of the harness. */
  lemma {:induction false} FailuresReturnHarnessFailure(h: Handle, s: State, a: Action)
    requires Enabled(h, s, a)
    requires || a == Exit(WriteTrial(false)) || a == Exit(WriteOutcome(false))
             || (InLoop(s.client.pc) && Step(h, s, a).client.pc.Settling? && !a.Exit?)
    ensures Step(h, s, a).client.guard.status.HarnessFailure?
  {
    match a
    case Loop(b) =>
      if b.React? {
        match s.rt.log[s.client.pc.position - 1].event
        case ApprovalRequested(_, _) =>
        case RunFinished(_, _, _) =>
        case Progress =>
      }
    case _ =>
  }
}
