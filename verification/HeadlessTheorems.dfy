/** The guarantees of the headless client over every behaviour. */
module HeadlessTheorems {
  import opened Options
  import opened EventLog
  import opened HeadlessClient
  import opened HeadlessProofs

  lemma {:induction false} InitEstablishesInv(h: Handle, s: State)
    requires Init(h, s)
    ensures Inv(h, s)
  {
  }

  /** Whatever the step, holds raised after `from` stay covered. */
  lemma {:induction false} StepKeepsHolds(h: Handle, s: State, a: Action, from: nat)
    requires Inv(h, s) && HoldsInv(h, s, from) && Enabled(h, s, a)
    ensures HoldsInv(h, Step(h, s, a), from)
  {
    match a
    case Environment(change) => EnvironmentKeepsHolds(h, s, change, from);
    case Loop(b) => LoopKeepsHolds(h, s, b, from);
    case Recovery(b) => RecoveryKeepsHolds(h, s, b, from);
    case Settlement(b) => SettleKeepsHolds(h, s, b, from);
    case Exit(b) => ExitKeepsHolds(h, s, b, from);
  }

  lemma {:induction false} StepKeepsSweep(h: Handle, s: State, a: Action)
    requires Inv(h, s) && Enabled(h, s, a)
    ensures SweepInv(h, Step(h, s, a))
  {
    if Step(h, s, a).client.pc.Repairing? {
      assert s.client.pc.Listing? || s.client.pc.Repairing?;
      StepKeepsHolds(h, s, a, 0);
    }
  }

  lemma {:induction false} StepKeepsInv(h: Handle, s: State, a: Action)
    requires Inv(h, s) && Enabled(h, s, a)
    ensures Inv(h, Step(h, s, a))
  {
    StepKeepsHolds(h, s, a, h.start);
    StepKeepsSweep(h, s, a);
    match a
    case Environment(change) =>
      EnvironmentKeepsCursor(h, s, change);
      EnvironmentKeepsTrace(h, s, change);
      EnvironmentKeepsStatus(h, s, change);
    case Loop(b) =>
      LoopKeepsCursor(h, s, b);
      LoopKeepsCancel(h, s, b);
      LoopKeepsGuard(h, s, b);
      LoopKeepsTrace(h, s, b);
      LoopKeepsStatus(h, s, b);
    case Recovery(b) =>
      RecoveryKeepsCursor(h, s, b);
      RecoveryKeepsCancel(h, s, b);
      RecoveryKeepsGuard(h, s, b);
      RecoveryKeepsTrace(h, s, b);
      RecoveryKeepsStatus(h, s, b);
    case Settlement(b) =>
      SettleKeepsCursor(h, s, b);
      SettleKeepsCancel(h, s, b);
      SettleKeepsGuard(h, s, b);
      SettleKeepsTrace(h, s, b);
      SettleKeepsStatus(h, s, b);
    case Exit(b) =>
      ExitKeepsCursor(h, s, b);
      ExitKeepsGuard(h, s, b);
      ExitKeepsTrace(h, s, b);
      ExitKeepsStatus(h, s, b);
  }

  lemma {:induction false} BehaviorKeepsInv(h: Handle, states: seq<State>, actions: seq<Action>, i: nat)
    requires Behavior(h, states, actions) && i < |states|
    ensures Inv(h, states[i])
  {
    if i == 0 {
      InitEstablishesInv(h, states[0]);
    } else {
      BehaviorKeepsInv(h, states, actions, i - 1);
      StepKeepsInv(h, states[i - 1], actions[i - 1]);
    }
  }

  /** Waiting for events, in the main loop or while a cancelled run settles. */
  predicate IsWaiting(pc: Pc) {
    pc.Waiting? || (pc.Settling? && pc.stage.SettleWait?)
  }

  /** No lost terminal event: a waiting client's cursor is strictly before it. */
  lemma {:induction false} NoLostTerminal(h: Handle, states: seq<State>, actions: seq<Action>, i: nat, p: nat)
    requires Behavior(h, states, actions) && i < |states|
    requires IsWaiting(states[i].client.pc) && TerminalAt(states[i].rt.log, h.run, p)
    ensures states[i].client.cursor < p
  {
    BehaviorKeepsInv(h, states, actions, i);
  }

  /** A completed recovery has looked at every pending hold of the tree, and from then on all of them stay covered. */
  lemma {:induction false} SweptStaysCovered(h: Handle, states: seq<State>, actions: seq<Action>, k: nat, i: nat)
    requires Behavior(h, states, actions) && k < i < |states| && actions[k] == Recovery(Resume)
    ensures HoldsInv(h, states[i], 0)
    decreases i
  {
    BehaviorKeepsInv(h, states, actions, i - 1);
    if k < i - 1 {
      SweptStaysCovered(h, states, actions, k, i - 1);
    }
    StepKeepsHolds(h, states[i - 1], actions[i - 1], 0);
  }

  /** Until a recovery is complete, nothing at or before the start cursor is delivered or answered. */
  ghost predicate Unswept(h: Handle, c: Client) {
    InLoop(c.pc) || c.pc.Accepted? ==>
      && h.start <= c.cursor
      && (c.pc.Handling? ==> h.start < c.pc.position)
      && (!c.pc.Repairing? ==> AnswersAfter(h.start, c.sent.responses))
  }

  ghost predicate AnswersAfter(start: nat, responses: seq<Response>) {
    forall k | 0 <= k < |responses| :: start < responses[k].position
  }

  lemma {:induction false} LoopKeepsUnswept(h: Handle, r: Runtime, c: Client, a: LoopAction)
    requires CursorInv(h, r, c.cursor, c.pc) && Unswept(h, c) && LoopEnabled(r, c, a)
    ensures Unswept(h, LoopStep(h, r, c, a))
  {
    if a.React? {
      match r.log[c.pc.position - 1].event
      case ApprovalRequested(_, _) =>
      case RunFinished(_, _, _) =>
      case Progress =>
    }
  }

  lemma {:induction false} RecoveryKeepsUnswept(h: Handle, r: Runtime, c: Client, a: RecoveryAction)
    requires CursorInv(h, r, c.cursor, c.pc) && Unswept(h, c) && RecoveryEnabled(r, c, a) && a != Resume
    ensures Unswept(h, RecoveryStep(h, r, c, a))
  {
  }

  lemma {:induction false} StepKeepsUnswept(h: Handle, s: State, a: Action)
    requires CursorInv(h, s.rt, s.client.cursor, s.client.pc) && Unswept(h, s.client)
    requires Enabled(h, s, a) && a != Recovery(Resume)
    ensures Unswept(h, Step(h, s, a).client)
  {
    match a
    case Environment(_) =>
    case Loop(b) => LoopKeepsUnswept(h, s.rt, s.client, b);
    case Recovery(b) => RecoveryKeepsUnswept(h, s.rt, s.client, b);
    case Settlement(b) => SettlementLeavesLoop(h, s.rt, s.client, b);
    case Exit(_) =>
  }

  lemma {:induction false} SettlementLeavesLoop(h: Handle, r: Runtime, c: Client, a: SettleAction)
    requires SettleEnabled(r, c, a)
    ensures !InLoop(SettleStep(h, r, c, a).pc) && !SettleStep(h, r, c, a).pc.Accepted?
  {
  }

  lemma {:induction false} UnsweptBefore(h: Handle, states: seq<State>, actions: seq<Action>, i: nat)
    requires Behavior(h, states, actions) && i < |states|
    requires forall k | 0 <= k < i :: actions[k] != Recovery(Resume)
    ensures Unswept(h, states[i].client)
  {
    if i > 0 {
      UnsweptBefore(h, states, actions, i - 1);
      BehaviorKeepsInv(h, states, actions, i - 1);
      StepKeepsUnswept(h, states[i - 1], actions[i - 1]);
    }
  }

  /** Before a recovery is complete, a hold at or before the start cursor is covered by nothing but a cancel. */
  lemma {:induction false} OlderHoldIsNotCovered(
    h: Handle, states: seq<State>, actions: seq<Action>, i: nat, hold: Hold)
    requires Behavior(h, states, actions) && i < |states| && states[i].client.pc.Waiting?
    requires hold.position <= h.start && forall k | 0 <= k < i :: actions[k] != Recovery(Resume)
    ensures Covered(states[i].client, hold) <==> states[i].client.sent.cancelAccepted
  {
    UnsweptBefore(h, states, actions, i);
  }

  /**
   No stranded approval, exactly: at a loop head a pending hold of the tree is still to come, answered or cancelled,
   if and only if it was raised after the start cursor, or a recovery is complete, or the run was asked to cancel.
   */
  lemma {:induction false} NoStrandedApproval(
    h: Handle, states: seq<State>, actions: seq<Action>, i: nat, hold: Hold)
    requires Behavior(h, states, actions) && i < |states|
    requires states[i].client.pc.Waiting? && InTree(h, states[i].rt, hold, 0)
    ensures Covered(states[i].client, hold) <==>
            || h.start < hold.position
            || (exists k :: 0 <= k < i && actions[k] == Recovery(Resume))
            || states[i].client.sent.cancelAccepted
  {
    BehaviorKeepsInv(h, states, actions, i);
    if k :| 0 <= k < i && actions[k] == Recovery(Resume) {
      SweptStaysCovered(h, states, actions, k, i);
    } else if h.start < hold.position {
      assert InTree(h, states[i].rt, hold, h.start);
    } else {
      OlderHoldIsNotCovered(h, states, actions, i, hold);
    }
  }

  /** Every response answers a logged request with the policy's decision: ApproveOnce only for root calls under Full. */
  lemma {:induction false} ResponsesFollowPolicy(
    h: Handle, states: seq<State>, actions: seq<Action>, i: nat, k: nat)
    requires Behavior(h, states, actions) && i < |states|
    requires k < |states[i].client.sent.responses|
    ensures ResponseOk(h, states[i].rt.log, states[i].client.sent.responses[k])
  {
    BehaviorKeepsInv(h, states, actions, i);
  }

  /** The invocation read the durable result or at least tried to cancel the run. */
  predicate Accounted(c: Client) {
    c.guard.resultRead || c.sent.cancels >= 1
  }

  /** The guard is dropped while it still stands for the run, before any cancel, where no runtime is left. */
  predicate Abandons(c: Client, a: Action) {
    && (a == Exit(Return(false)) || a == Exit(Drop(false)))
    && c.guard.armed && c.sent.cancels == 0
  }

  lemma {:induction false} SettlementAccounts(h: Handle, r: Runtime, c: Client, a: SettleAction)
    requires SettleEnabled(r, c, a) && GuardInv(c) && SettleStep(h, r, c, a).pc.Exited?
    ensures Accounted(SettleStep(h, r, c, a))
  {
  }

  lemma {:induction false} LastExitDecides(c: Client, a: ExitAction)
    requires ExitEnabled(c, a) && GuardInv(c) && ExitStep(c, a).pc.Exited? && (c.guard.resultRead ==> !c.guard.armed)
    ensures Accounted(ExitStep(c, a)) <==> !Abandons(c, Exit(a))
  {
  }

  /** The step with which a client exits decides: it leaves the run unaccounted for iff it abandons it. */
  lemma {:induction false} LastStepDecides(h: Handle, s: State, a: Action)
    requires Inv(h, s) && Enabled(h, s, a) && !s.client.pc.Exited? && Step(h, s, a).client.pc.Exited?
    ensures Accounted(Step(h, s, a).client) <==> !Abandons(s.client, a)
  {
    match a
    case Settlement(b) => SettlementAccounts(h, s.rt, s.client, b);
    case Exit(b) => LastExitDecides(s.client, b);
    case _ =>
  }

  lemma {:induction false} ExitedIsFinal(h: Handle, s: State, a: Action)
    requires Enabled(h, s, a) && s.client.pc.Exited?
    ensures Step(h, s, a).client == s.client && !Abandons(s.client, a)
  {
  }

  lemma {:induction false} AbandoningExits(h: Handle, s: State, a: Action)
    requires Enabled(h, s, a) && Abandons(s.client, a)
    ensures Step(h, s, a).client.pc.Exited?
  {
  }

  lemma {:induction false} ExitedStays(h: Handle, states: seq<State>, actions: seq<Action>, k: nat, i: nat)
    requires Behavior(h, states, actions) && k <= i < |states| && states[k].client.pc.Exited?
    ensures states[i].client.pc.Exited?
    decreases i
  {
    if k < i {
      ExitedStays(h, states, actions, k, i - 1);
      ExitedIsFinal(h, states[i - 1], actions[i - 1]);
    }
  }

  /**
   Accepted runs are never abandoned, exactly: a client that has exited read the result or attempted a cancel, if
   and only if its guard was not dropped armed, without a cancel before, where no runtime is left.
   */
  lemma {:induction false} NeverAbandoned(h: Handle, states: seq<State>, actions: seq<Action>, i: nat)
    requires Behavior(h, states, actions) && i < |states| && states[i].client.pc.Exited?
    ensures Accounted(states[i].client) <==> !exists k :: 0 <= k < i && Abandons(states[k].client, actions[k])
  {
    if i > 0 {
      var s, a := states[i - 1], actions[i - 1];
      if s.client.pc.Exited? {
        NeverAbandoned(h, states, actions, i - 1);
        ExitedIsFinal(h, s, a);
      } else {
        BehaviorKeepsInv(h, states, actions, i - 1);
        LastStepDecides(h, s, a);
        forall k | 0 <= k < i - 1
          ensures !Abandons(states[k].client, actions[k])
        {
          if Abandons(states[k].client, actions[k]) {
            AbandoningExits(h, states[k], actions[k]);
            ExitedStays(h, states, actions, k + 1, i - 1);
          }
        }
      }
    }
  }

  /** Such a drop is possible, from the moment the run is accepted. */
  lemma {:induction false} DropOutsideRuntimeAbandons(h: Handle, s: State)
    requires Init(h, s)
    ensures Enabled(h, s, Exit(Drop(false))) && Abandons(s.client, Exit(Drop(false)))
    ensures var c := Step(h, s, Exit(Drop(false))).client; c.pc.Exited? && !Accounted(c)
  {
  }

  /** At every loop head the shutdown deadline is armed iff a cancel was requested, and at most two were. */
  lemma {:induction false} DeadlineIffCancelled(h: Handle, states: seq<State>, actions: seq<Action>, i: nat)
    requires Behavior(h, states, actions) && i < |states|
    ensures states[i].client.sent.loopCancels <= 2
    ensures states[i].client.pc.Waiting? ==>
              (states[i].client.flags.shutdownArmed <==> states[i].client.sent.cancels > 0)
  {
    BehaviorKeepsInv(h, states, actions, i);
  }

  /** One trial, events in log order that end with the run's own terminal event, then one outcome. */
  lemma {:induction false} TraceWellFormed(h: Handle, states: seq<State>, actions: seq<Action>, i: nat)
    requires Behavior(h, states, actions) && i < |states|
    requires states[i].client.guard.resultRead
    requires var records := states[i].client.records;
             records != [] && records[|records| - 1].OutcomeRecord?
    ensures Complete(h, states[i].rt.log, states[i].client.records, states[i].client.guard.status)
  {
    BehaviorKeepsInv(h, states, actions, i);
  }

  /** What each exit status says about the run's terminal event and about this client. */
  predicate Means(status: Status, e: Event, needsInput: bool, interrupted: bool)
    requires e.RunFinished?
  {
    match status
    case StatusCompleted => e.outcome.Completed? && e.output != Some(Invalid)
    case TaskFailed =>
      (e.outcome.Completed? && e.output == Some(Invalid)) || e.outcome == Failed(false) || e.outcome.Paused?
    case HarnessFailure =>
      e.outcome == Failed(true) || e.outcome.Interrupted? || (e.outcome.Cancelled? && !needsInput && !interrupted)
    case StatusBudgetExhausted => e.outcome == BudgetExhausted(false)
    case TimedOut => e.outcome == BudgetExhausted(true)
    case StatusInterrupted => e.outcome.Cancelled? && interrupted && !needsInput
    case NeedsInput => e.outcome.Cancelled? && needsInput
  }

  /** The status of a finished run is the only one whose meaning fits. */
  lemma FinishStatusMeans(status: Status, e: Event, needsInput: bool, interrupted: bool)
    requires e.RunFinished?
    ensures status == FinishStatus(e, needsInput, interrupted) <==> Means(status, e, needsInput, interrupted)
  {
  }

  /** No status is made up: any but a failure of the harness is what the log's terminal event means. */
  lemma {:induction false} StatusIsDurable(h: Handle, states: seq<State>, actions: seq<Action>, i: nat)
    requires Behavior(h, states, actions) && i < |states|
    requires !states[i].client.guard.status.HarnessFailure?
    ensures states[i].client.guard.resultRead
    ensures exists p :: TerminalAt(states[i].rt.log, h.run, p) &&
                        var c := states[i].client;
                        Means(c.guard.status, states[i].rt.log[p - 1].event, c.flags.needsInput, c.flags.interrupted)
  {
    BehaviorKeepsInv(h, states, actions, i);
    var c := states[i].client;
    var p :| TerminalAt(states[i].rt.log, h.run, p) &&
             c.guard.status == FinishStatus(states[i].rt.log[p - 1].event, c.flags.needsInput, c.flags.interrupted);
    FinishStatusMeans(c.guard.status, states[i].rt.log[p - 1].event, c.flags.needsInput, c.flags.interrupted);
  }

  /** The actions that only take the next event off the stream and deal with it. */
  ghost predicate OnlyDeliveries(actions: seq<Action>) {
    forall i | 0 <= i < |actions| :: actions[i] == Loop(Receive(true)) || actions[i] == Loop(React(true))
  }

  lemma {:induction false} Reaction(h: Handle, r: Runtime, c: Client)
    requires c.pc.Handling? && 1 <= c.pc.position <= |r.log|
    ensures var d := LoopStep(h, r, c, React(true));
            if TerminalAt(r.log, h.run, c.pc.position) then d.pc.Ending? && d.guard.resultRead
            else d.pc.Waiting? && d.cursor == c.cursor
  {
    match r.log[c.pc.position - 1].event
    case ApprovalRequested(_, _) =>
    case RunFinished(_, _, _) =>
    case Progress =>
  }

  /** One delivery brings a waiting client one position on, or to the durable result. */
  lemma {:induction false} OneDelivery(h: Handle, s: State, p: nat) returns (s1: State, s2: State)
    requires Inv(h, s) && s.client.pc.Waiting? && TerminalAt(s.rt.log, h.run, p)
    ensures Enabled(h, s, Loop(Receive(true))) && s1 == Step(h, s, Loop(Receive(true)))
    ensures Enabled(h, s1, Loop(React(true))) && s2 == Step(h, s1, Loop(React(true)))
    ensures Inv(h, s2) && s2.rt == s.rt && s.client.cursor < p
    ensures if s.client.cursor + 1 == p then s2.client.pc.Ending? && s2.client.guard.resultRead
            else s2.client.pc.Waiting? && s2.client.cursor == s.client.cursor + 1
  {
    s1 := Step(h, s, Loop(Receive(true)));
    StepKeepsInv(h, s, Loop(Receive(true)));
    s2 := Step(h, s1, Loop(React(true)));
    StepKeepsInv(h, s1, Loop(React(true)));
    Reaction(h, s.rt, s1.client);
  }

  lemma {:induction false} ExtendExecution(
    h: Handle, s: State, s1: State, rest: seq<State>, a: Action, b: Action, more: seq<Action>)
    requires Execution(h, rest, more)
    requires Enabled(h, s, a) && s1 == Step(h, s, a) && Enabled(h, s1, b) && rest[0] == Step(h, s1, b)
    ensures Execution(h, [s, s1] + rest, [a, b] + more)
  {
    var states, actions := [s, s1] + rest, [a, b] + more;
    forall i | 0 <= i < |actions|
      ensures Enabled(h, states[i], actions[i]) && states[i + 1] == Step(h, states[i], actions[i])
    {
      if i >= 2 {
        assert actions[i] == more[i - 2] && states[i] == rest[i - 2] && states[i + 1] == rest[i - 1];
      }
    }
  }

  /** Progress while nothing has expired: the result of a finished run is p - cursor deliveries away. */
  lemma {:induction false} DeliveriesReachResult(h: Handle, s: State, p: nat)
    returns (states: seq<State>, actions: seq<Action>)
    requires Inv(h, s) && s.client.pc.Waiting? && TerminalAt(s.rt.log, h.run, p)
    requires s.rt.floor <= s.client.cursor
    ensures Execution(h, states, actions) && states[0] == s
    ensures OnlyDeliveries(actions) && |actions| == 2 * (p - s.client.cursor)
    ensures var last := states[|states| - 1].client; last.pc.Ending? && last.guard.resultRead
    decreases p - s.client.cursor
  {
    var s1, s2 := OneDelivery(h, s, p);
    var rest, more := [s2], [];
    if s.client.cursor + 1 < p {
      rest, more := DeliveriesReachResult(h, s2, p);
    }
    ExtendExecution(h, s, s1, rest, Loop(Receive(true)), Loop(React(true)), more);
    states, actions := [s, s1] + rest, [Loop(Receive(true)), Loop(React(true))] + more;
  }

  /** Progress across a gap: once the cursor has expired, recovery reads the result and records its receipt. */
  lemma {:induction false} RecoveryReachesResult(h: Handle, s: State, p: nat)
    returns (states: seq<State>)
    requires Inv(h, s) && s.client.pc.Waiting? && TerminalAt(s.rt.log, h.run, p)
    requires s.client.cursor < s.rt.floor
    ensures Execution(h, states, [Loop(CursorExpired), Recovery(Snapshot(true)),
                                  Recovery(Resubscribe(true)), Recovery(Check(true))])
    ensures states[0] == s
    ensures var last := states[|states| - 1].client;
            && last.pc.Ending? && last.guard.resultRead
            && last.records == s.client.records + [EventRecord(p, s.rt.log[p - 1])]
            && last.cursor == |s.rt.log| && last.flags.recovered
  {
    var expired := Step(h, s, Loop(CursorExpired));
    var taken := Step(h, expired, Recovery(Snapshot(true)));
    var attached := Step(h, taken, Recovery(Resubscribe(true)));
    var read := Step(h, attached, Recovery(Check(true)));
    states := [s, expired, taken, attached, read];
  }

  // ----- progress of settlement

  /** The client waits for a cancelled run to settle, and its terminal event is in the log at `p`. */
  ghost predicate SettlesAt(h: Handle, s: State, p: nat) {
    && Inv(h, s) && s.client.pc.Settling? && s.client.pc.stage.SettleWait?
    && TerminalAt(s.rt.log, h.run, p)
  }

  /** While nothing has expired, p - cursor deliveries end settlement successfully. */
  lemma {:induction false} DeliveriesSettle(h: Handle, s: State, p: nat)
    returns (states: seq<State>, actions: seq<Action>)
    requires SettlesAt(h, s, p) && s.rt.floor <= s.client.cursor
    ensures Execution(h, states, actions) && states[0] == s
    ensures |actions| == p - s.client.cursor
    ensures forall i | 0 <= i < |actions| :: actions[i] == Settlement(SettleReceive)
    ensures var c := s.client.(cursor := p);
            states[|states| - 1] == s.(client :=
              if c.guard.detached then c.(pc := Exited)
              else c.(guard := c.guard.(armed := false), pc := if c.pc.reports then Ending else Returning))
    decreases p - s.client.cursor
  {
    var a := Settlement(SettleReceive);
    var next := Step(h, s, a);
    if s.client.cursor + 1 == p {
      states, actions := [s, next], [a];
    } else {
      StepKeepsInv(h, s, a);
      var rest, more := DeliveriesSettle(h, next, p);
      states, actions := [s] + rest, [a] + more;
      forall i | 0 <= i < |actions|
        ensures Enabled(h, states[i], actions[i]) && states[i + 1] == Step(h, states[i], actions[i])
        ensures actions[i] == a
      {
        if i > 0 {
          assert actions[i] == more[i - 1] && states[i] == rest[i - 1] && states[i + 1] == rest[i];
        }
      }
    }
  }

  /** Once the cursor has expired, snapshot, resubscription and probe end settlement successfully. */
  lemma {:induction false} RecoverySettles(h: Handle, s: State, p: nat) returns (states: seq<State>)
    requires SettlesAt(h, s, p) && s.client.cursor < s.rt.floor
    ensures Execution(h, states, [Settlement(SettleExpired), Settlement(SettleTakeSnapshot(true)),
                                  Settlement(SettleAttach(true)), Settlement(SettleProbe(true))])
    ensures states[0] == s
    ensures var c := s.client.(cursor := |s.rt.log|);
            states[|states| - 1] == s.(client :=
              if c.guard.detached then c.(pc := Exited)
              else c.(guard := c.guard.(armed := false), pc := if c.pc.reports then Ending else Returning))
  {
    var expired := Step(h, s, Settlement(SettleExpired));
    var taken := Step(h, expired, Settlement(SettleTakeSnapshot(true)));
    var attached := Step(h, taken, Settlement(SettleAttach(true)));
    states := [s, expired, taken, attached, Step(h, attached, Settlement(SettleProbe(true)))];
  }
}
