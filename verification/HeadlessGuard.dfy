/** The accepted-run guard: when the headless client lets go of a run, and when it holds on to it. */
module HeadlessGuard {
  import opened EventLog
  import opened HeadlessClient
  import opened HeadlessProofs
  import opened HeadlessTheorems

  /** The awaited call of a settlement step fails, or its time is over. */
  predicate SettleStepFails(a: SettleAction) {
    match a
    case SettleCancel(ok) => !ok
    case SettleSubscribe(ok) => !ok
    case SettleTakeSnapshot(ok) => !ok
    case SettleAttach(ok) => !ok
    case SettleProbe(ok) => !ok
    case SettleReceive => false
    case SettleExpired => false
    case SettleFails => true
  }

  /** The step reads the run's terminal event: off the stream, or in the durable log. */
  ghost predicate SeesSettled(h: Handle, r: Runtime, c: Client, a: SettleAction) {
    || (a == SettleProbe(true) && Finished(r.log, h.run))
    || (a == SettleReceive && TerminalAt(r.log, h.run, c.cursor + 1))
  }

  /** Settlement ends with a failed step or with the terminal event, and lets go of the run only then. */
  lemma {:induction false} SettlementEndsIff(h: Handle, r: Runtime, c: Client, a: SettleAction)
    requires SettleEnabled(r, c, a)
    ensures var d := SettleStep(h, r, c, a);
            && (d.pc.Settling? <==> !SettleStepFails(a) && !SeesSettled(h, r, c, a))
            && (!d.pc.Settling? && c.guard.detached ==> d.pc.Exited? && d.guard == c.guard)
            && (!d.pc.Settling? && !c.guard.detached ==>
                  && d.pc == (if c.pc.reports then Ending else Returning)
                  && d.guard == c.guard.(armed := SettleStepFails(a)))
  {
  }

  /** Within the invocation a guard is disarmed only for a run whose terminal event is in the log. */
  ghost predicate DisarmedWhenDone(h: Handle, s: State) {
    (s.client.pc.Ending? || s.client.pc.Returning?) && !s.client.guard.armed ==> Finished(s.rt.log, h.run)
  }

  lemma {:induction false} LoopKeepsDisarmed(h: Handle, s: State, a: LoopAction)
    requires Inv(h, s) && LoopEnabled(s.rt, s.client, a)
    ensures DisarmedWhenDone(h, s.(client := LoopStep(h, s.rt, s.client, a)))
  {
    if a.React? {
      var p := s.client.pc.position;
      match s.rt.log[p - 1].event
      case ApprovalRequested(_, _) =>
      case RunFinished(run, _, _) => assert run == h.run ==> TerminalAt(s.rt.log, h.run, p);
      case Progress =>
    }
  }

  lemma {:induction false} StepKeepsDisarmed(h: Handle, s: State, a: Action)
    requires Inv(h, s) && DisarmedWhenDone(h, s) && Enabled(h, s, a)
    ensures DisarmedWhenDone(h, Step(h, s, a))
  {
    match a
    case Environment(change) => EvolveKeepsRuntimeOk(h.run, s.rt, change);
    case Loop(b) => LoopKeepsDisarmed(h, s, b);
    case Recovery(_) =>
    case Settlement(b) => SettlementEndsIff(h, s.rt, s.client, b);
    case Exit(_) =>
  }

  /** Over every behaviour, a client that is done and no longer stands for its run has a finished run. */
  lemma {:induction false} DisarmedRunIsFinished(h: Handle, states: seq<State>, actions: seq<Action>, i: nat)
    requires Behavior(h, states, actions) && i < |states|
    ensures DisarmedWhenDone(h, states[i])
  {
    if i > 0 {
      BehaviorKeepsInv(h, states, actions, i - 1);
      DisarmedRunIsFinished(h, states, actions, i - 1);
      StepKeepsDisarmed(h, states[i - 1], actions[i - 1]);
    }
  }

  /**
   A run that may still be going is not let go: where the invocation returns with a runtime at hand and the run has
   no terminal event, a detached task takes settlement up again from its first step, the cancel.
   */
  lemma {:induction false} UnfinishedRunIsRetried(h: Handle, states: seq<State>, actions: seq<Action>, i: nat)
    requires Behavior(h, states, actions) && i < |actions| && actions[i] == Exit(Return(true))
    requires !Finished(states[i].rt.log, h.run)
    ensures var c := states[i + 1].client; c.guard.detached && c.pc == Settling(Cancelling, false)
  {
    DisarmedRunIsFinished(h, states, actions, i);
  }

  /** Settlement in full: cancel, subscribe, snapshot, attach at its position, probe; then it ends or waits there. */
  lemma {:induction false} SettlementReads(h: Handle, s: State) returns (states: seq<State>)
    requires s.client.pc.Settling? && s.client.pc.stage.Cancelling?
    ensures Execution(h, states, [Settlement(SettleCancel(true)), Settlement(SettleSubscribe(true)),
                                  Settlement(SettleTakeSnapshot(true)), Settlement(SettleAttach(true)),
                                  Settlement(SettleProbe(true))])
    ensures states[0] == s
    ensures var last := states[5].client;
            && last.cursor == |s.rt.log| && last.sent.cancels == s.client.sent.cancels + 1
            && (Finished(s.rt.log, h.run) ==> !last.pc.Settling? && (last.guard.detached || !last.guard.armed))
            && (!Finished(s.rt.log, h.run) ==> last.pc == Settling(SettleWait, s.client.pc.reports))
  {
    var cancelled := Step(h, s, Settlement(SettleCancel(true)));
    var observing := Step(h, cancelled, Settlement(SettleSubscribe(true)));
    var taken := Step(h, observing, Settlement(SettleTakeSnapshot(true)));
    var attached := Step(h, taken, Settlement(SettleAttach(true)));
    states := [s, cancelled, observing, taken, attached, Step(h, attached, Settlement(SettleProbe(true)))];
  }
}
