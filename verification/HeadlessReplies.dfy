/** Which approval requests the headless client answers, and how: live, and in a recovery. */
module HeadlessReplies {
  import opened Options
  import opened EventLog
  import opened HeadlessClient

  /** Only a call of the root session under Full is approved. */
  function CallDecision(h: Handle, call: Call): Decision {
    if h.approval == Full && call.session == h.session then ApproveOnce else Deny
  }

  // ----- live

  /**
   Live, every delivered request is answered, whatever session it comes from: all but a question of this run, which
   cancels it once, and a question without a run, which cannot be addressed.
   */
  lemma {:induction false} LiveAnswersEveryRequest(h: Handle, s: State, ok: bool)
    requires LoopEnabled(s.rt, s.client, React(ok))
    requires s.rt.log[s.client.pc.position - 1].event.ApprovalRequested?
    ensures var e, c := s.rt.log[s.client.pc.position - 1], s.client;
            var ours := e.session == h.session && e.run == Some(h.run);
            var sent := LoopStep(h, s.rt, c, React(ok)).sent;
            && sent.responses == c.sent.responses +
               (if e.event.question && (ours || e.run.None?) then []
                else [Response(c.pc.position, e.event.call, true,
                               if e.event.question then Answer else CallDecision(h, e.event.call))])
            && sent.cancels == c.sent.cancels + if e.event.question && ours && !c.flags.needsInput then 1 else 0
  {
  }

  // ----- in a recovery

  /** A hold that recovery passes over: a call of another run of the root session. */
  predicate IsForeign(h: Handle, hold: Hold) {
    hold.call.session == h.session && hold.call.run != h.run
  }

  /** A hold that cancels the run: a question of this run itself that the client can see. */
  predicate IsOwnQuestion(h: Handle, hold: Hold) {
    hold.call.session == h.session && hold.call.run == h.run && hold.preview && hold.question
  }

  /**
   Recovery answers every other hold it finds: a call without a preview is denied whatever the approval mode, a
   question of a descendant gets an empty answer, and the rest follows the policy.
   */
  lemma {:induction false} RecoveryDecides(
    h: Handle, states: seq<State>, actions: seq<Action>, i: nat, found: bool, ok: bool)
    requires Execution(h, states, actions) && i < |actions| && actions[i] == Recovery(Repair(found, ok))
    ensures var hold, c, after := states[i].client.pc.holds[0], states[i].client, states[i + 1].client;
            && after.sent.responses == c.sent.responses +
               (if !found || IsForeign(h, hold) || IsOwnQuestion(h, hold) then []
                else [Response(hold.position, hold.call, hold.preview,
                               if !hold.preview then Deny
                               else if hold.question then Answer
                               else CallDecision(h, hold.call))])
            && after.sent.cancels == c.sent.cancels +
               (if found && IsOwnQuestion(h, hold) && !c.flags.needsInput then 1 else 0)
            && (!found ==> after.pc.Settling? && after.guard.status.HarnessFailure?)
  {
  }

  // ----- within the tree

  /** What recovery works on lies within the tree. */
  ghost predicate RepairsTree(s: State) {
    s.client.pc.Repairing? ==>
      && (forall session | session in s.client.pc.sessions :: session in s.rt.family)
      && (forall hold | hold in s.client.pc.holds :: hold.call.session in s.rt.family)
  }

  lemma {:induction false} StepKeepsRepairs(h: Handle, s: State, a: Action)
    requires RepairsTree(s) && Enabled(h, s, a)
    ensures RepairsTree(Step(h, s, a))
  {
    match a
    case Recovery(b) =>
      if b.Inspect? {
        assert s.client.pc.sessions[0] in s.client.pc.sessions;
      }
    case _ =>
  }

  lemma {:induction false} BehaviorRepairsTree(h: Handle, states: seq<State>, actions: seq<Action>, i: nat)
    requires Behavior(h, states, actions) && i < |states|
    ensures RepairsTree(states[i])
  {
    if i > 0 {
      BehaviorRepairsTree(h, states, actions, i - 1);
      StepKeepsRepairs(h, states[i - 1], actions[i - 1]);
    }
  }

  /** Recovery sends responses only when it repairs, and only to calls of the tree, in the root session of this run. */
  lemma {:induction false} RecoveryAnswersTheTree(h: Handle, states: seq<State>, actions: seq<Action>, i: nat)
    requires Behavior(h, states, actions) && i < |actions| && actions[i].Recovery?
    ensures var before, after := states[i].client.sent.responses, states[i + 1].client.sent.responses;
            || after == before
            || ( && |after| == |before| + 1 && after[..|before|] == before && actions[i].recovery.Repair?
                 && after[|before|].call.session in states[i].rt.family
                 && (after[|before|].call.session == h.session ==> after[|before|].call.run == h.run))
  {
    BehaviorRepairsTree(h, states, actions, i);
    if actions[i].recovery.Repair? {
      assert states[i].client.pc.holds[0] in states[i].client.pc.holds;
    }
  }
}
