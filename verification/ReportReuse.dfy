/**
 The lifecycle of the gate report: one file that each check reads, removes, and writes again only after
 its gates ran on a tree that did not change meanwhile. Everything outside the process (file system,
 git, gates, being killed) answers through an `Invocation`, so a theorem over all invocations is a theorem
 over all failures, interruptions and tree edits.
 */
module ReportReuse {
  import opened Options
  import opened Sequences
  import GateKey

  datatype Stamp = Stamp(head: string, dirty: bool, digest: string)

  datatype Gate = Gate(name: string, command: string)

  datatype GateReport = GateReport(gate: Gate, passed: bool)

  datatype Report = Report(stamp: Stamp, gates: seq<GateReport>, passed: bool)

  /** `Corrupt` is a file that does not parse, such as a torn write. */
  datatype Disk = Absent | Corrupt | Saved(report: Report)

  /** How the outside answers a request; `Killed` ends the process there. */
  datatype Answer<+T> = Got(value: T) | Refused | Killed

  datatype Verdict = Pass | Fail | KilledInGate

  datatype Write = Written | WriteFailed(torn: bool) | KilledWriting(torn: bool) | KilledAfterWrite

  datatype Invocation = Invocation(
    dry: bool,
    rerun: bool,
    readable: bool,
    removal: Answer<()>,
    start: Answer<Stamp>,
    planned: Answer<seq<Gate>>,
    logs: Answer<()>,
    verdict: nat -> Verdict,
    finish: Answer<Stamp>,
    write: Write
  )

  datatype Failure = Environment | StaleTree | GateFailed(name: string)

  datatype Outcome = Passed | Failed(failure: Failure) | Dead

  /** What really happened to the gates in one run, whatever was reported about it. */
  datatype Session = Session(start: Stamp, planned: seq<Gate>, ran: seq<GateReport>, finish: Option<Stamp>)

  datatype State = State(disk: Disk, sessions: seq<Session>)

  datatype Effect = Effect(state: State, outcome: Outcome)

  datatype Progress = Progress(ran: seq<GateReport>, killed: bool)

  // ----- reference semantics

  function AllPassed(gates: seq<GateReport>): bool {
    forall i | 0 <= i < |gates| :: gates[i].passed
  }

  function Stopped<T>(answer: Answer<T>): Outcome {
    if answer.Killed? then Dead else Failed(Environment)
  }

  /** Gates run in order up to and including the first failure. */
  function GatesFrom(planned: seq<Gate>, verdict: nat -> Verdict, k: nat): Progress
    requires k <= |planned|
    decreases |planned| - k
  {
    if k == |planned| then Progress([], false)
    else match verdict(k)
      case KilledInGate => Progress([], true)
      case Fail => Progress([GateReport(planned[k], false)], false)
      case Pass =>
        var rest := GatesFrom(planned, verdict, k + 1);
        Progress([GateReport(planned[k], true)] + rest.ran, rest.killed)
  }

  predicate DoneUnder(gates: seq<GateReport>, gate: Gate) {
    exists i | 0 <= i < |gates| :: gates[i].passed && GateKey.Key(gates[i].gate.command) == GateKey.Key(gate.command)
  }

  predicate Covers(previous: Report, planned: seq<Gate>) {
    previous.passed && forall k | 0 <= k < |planned| :: DoneUnder(previous.gates, planned[k])
  }

  function WriteReport(disk: Disk, report: Report, write: Write): Disk {
    match write
    case Written => Saved(report)
    case KilledAfterWrite => Saved(report)
    case WriteFailed(torn) => if torn then Corrupt else disk
    case KilledWriting(torn) => if torn then Corrupt else disk
  }

  function Previous(disk: Disk, v: Invocation): Option<Report> {
    if v.readable && disk.Saved? then Some(disk.report) else None
  }

  predicate Reuses(previous: Option<Report>, v: Invocation)
    requires v.start.Got? && v.planned.Got?
  {
    && previous.Some? && !v.rerun
    && previous.value.stamp == v.start.value
    && Covers(previous.value, v.planned.value)
  }

  /** The run's outcome: `reporting` once the report is written, otherwise how the write ended. */
  function Reported(write: Write, reporting: Outcome): Outcome {
    match write
    case Written => reporting
    case WriteFailed(_) => Failed(Environment)
    case KilledWriting(_) => Dead
    case KilledAfterWrite => Dead
  }

  /** A run that found nothing to reuse: the report file is gone by now. */
  function FreshRun(sessions: seq<Session>, v: Invocation): Effect
    requires v.start.Got? && v.planned.Got? && v.logs.Got?
  {
    var progress := GatesFrom(v.planned.value, v.verdict, 0);
    var finish := if progress.killed || !v.finish.Got? then None else Some(v.finish.value);
    var seen := sessions + [Session(v.start.value, v.planned.value, progress.ran, finish)];
    if progress.killed then Effect(State(Absent, seen), Dead)
    else if !v.finish.Got? then Effect(State(Absent, seen), Stopped(v.finish))
    else if v.finish.value != v.start.value then Effect(State(Absent, seen), Failed(StaleTree))
    else
      var passed := |progress.ran| == |v.planned.value| && AllPassed(progress.ran);
      var reporting := if passed then Passed else Failed(GateFailed(FirstFailed(progress.ran)));
      Effect(State(WriteReport(Absent, Report(v.start.value, progress.ran, passed), v.write), seen),
             Reported(v.write, reporting))
  }

  function FirstFailed(gates: seq<GateReport>): string {
    if gates == [] then "unknown" else if !gates[0].passed then gates[0].gate.name else FirstFailed(gates[1..])
  }

  function Step(s: State, v: Invocation): Effect {
    var previous := Previous(s.disk, v);
    if !v.dry && !v.removal.Got? then Effect(s, Stopped(v.removal))
    else
      var cleared := if v.dry then s else State(Absent, s.sessions);
      if !v.start.Got? then Effect(cleared, Stopped(v.start))
      else if !v.planned.Got? then Effect(cleared, Stopped(v.planned))
      else if v.dry then Effect(s, Passed)
      else if Reuses(previous, v) then
        Effect(State(WriteReport(Absent, previous.value, v.write), s.sessions), Reported(v.write, Passed))
      else if !v.logs.Got? then Effect(cleared, Stopped(v.logs))
      else FreshRun(s.sessions, v)
  }

  /** The state after a history of invocations, starting with no report. */
  function After(history: seq<Invocation>): State {
    if |history| == 0 then State(Absent, [])
    else Step(After(history[..|history| - 1]), history[|history| - 1]).state
  }

  // ----- the program

  /** The `sessions` record is specification only: the program's whole state is the file. */
  class Checkout {
    var disk: Disk
    ghost var sessions: seq<Session>

    ghost function Now(): State
      reads this
    {
      State(disk, sessions)
    }

    constructor ()
      ensures Now() == After([])
    {
      disk := Absent;
      sessions := [];
    }

    method Run(v: Invocation) returns (outcome: Outcome)
      modifies this
      ensures Effect(Now(), outcome) == Step(old(Now()), v)
    {
      var previous := if v.readable && disk.Saved? then Some(disk.report) else None;
      if !v.dry {
        if !v.removal.Got? {
          return Stopped(v.removal);
        }
        disk := Absent;
      }
      if !v.start.Got? {
        return Stopped(v.start);
      }
      if !v.planned.Got? {
        return Stopped(v.planned);
      }
      if v.dry {
        return Passed;
      }
      if Reuses(previous, v) {
        disk := WriteReport(disk, previous.value, v.write);
        return Reported(v.write, Passed);
      }
      if !v.logs.Got? {
        return Stopped(v.logs);
      }
      outcome := RunAndReport(v);
    }

    method RunAndReport(v: Invocation) returns (outcome: Outcome)
      requires disk.Absent? && v.start.Got? && v.planned.Got? && v.logs.Got?
      modifies this
      ensures Effect(Now(), outcome) == FreshRun(old(sessions), v)
    {
      var stamp, planned := v.start.value, v.planned.value;
      var reports, killed := RunGates(planned, v.verdict);
      var passed := |reports| == |planned| && AllPassed(reports);
      ghost var finish := if killed || !v.finish.Got? then None else Some(v.finish.value);
      sessions := sessions + [Session(stamp, planned, reports, finish)];
      if killed {
        return Dead;
      }
      if !v.finish.Got? {
        return Stopped(v.finish);
      }
      if v.finish.value != stamp {
        return Failed(StaleTree);
      }
      disk := WriteReport(disk, Report(stamp, reports, passed), v.write);
      outcome := Reported(v.write, if passed then Passed else Failed(GateFailed(FirstFailed(reports))));
    }

    /** `--evidence`: what is printed is the saved report, and only for the tree it was made on. */
    method Evidence(readable: bool, now: Answer<Stamp>) returns (printed: Option<Report>)
      ensures printed.Some? <==> readable && disk.Saved? && now == Got(disk.report.stamp)
      ensures printed.Some? ==> disk == Saved(printed.value)
      ensures Honest(Now()) && printed.Some? ==>
                && now.Got? && Records(sessions[|sessions| - 1], printed.value)
                && sessions[|sessions| - 1].start == now.value
    {
      if !readable || !disk.Saved? || !now.Got? || disk.report.stamp != now.value {
        return None;
      }
      printed := Some(disk.report);
    }
  }

  method RunGates(planned: seq<Gate>, verdict: nat -> Verdict) returns (reports: seq<GateReport>, killed: bool)
    ensures Progress(reports, killed) == GatesFrom(planned, verdict, 0)
  {
    reports, killed := [], false;
    for k := 0 to |planned|
      invariant !killed
      invariant reports + GatesFrom(planned, verdict, k).ran == GatesFrom(planned, verdict, 0).ran
      invariant GatesFrom(planned, verdict, k).killed == GatesFrom(planned, verdict, 0).killed
    {
      if verdict(k).KilledInGate? {
        killed := true;
        break;
      }
      var passed := verdict(k).Pass?;
      Associate(reports, [GateReport(planned[k], passed)], GatesFrom(planned, verdict, k + 1).ran);
      reports := reports + [GateReport(planned[k], passed)];
      if !passed {
        break;
      }
    }
  }

  // ----- a report never claims more than the latest session did

  /** The session ran its whole plan, and every gate passed. */
  ghost predicate Complete(session: Session) {
    && |session.ran| == |session.planned|
    && forall k | 0 <= k < |session.ran| :: session.ran[k] == GateReport(session.planned[k], true)
  }

  /** The report tells of this session, which saw the same tree at both ends. */
  ghost predicate Records(session: Session, report: Report) {
    && session.start == report.stamp && session.finish == Some(report.stamp)
    && session.ran == report.gates
    && (report.passed <==> Complete(session))
  }

  ghost predicate Honest(s: State) {
    s.disk.Saved? ==> s.sessions != [] && Records(s.sessions[|s.sessions| - 1], s.disk.report)
  }

  predicate Passing(disk: Disk) { disk.Saved? && disk.report.passed }

  /** What ran is an initial part of the plan, all of it passing except perhaps the last gate. */
  lemma {:induction false} GatesFollowPlan(planned: seq<Gate>, verdict: nat -> Verdict, k: nat)
    requires k <= |planned|
    ensures var ran := GatesFrom(planned, verdict, k).ran;
            && |ran| <= |planned| - k
            && (forall i | 0 <= i < |ran| :: ran[i] == GateReport(planned[k + i], verdict(k + i).Pass?))
            && (forall i | 0 <= i < |ran| - 1 :: ran[i].passed)
    ensures var progress := GatesFrom(planned, verdict, k);
            !progress.killed ==>
              || |progress.ran| == |planned| - k
              || (progress.ran != [] && !progress.ran[|progress.ran| - 1].passed)
    ensures var progress := GatesFrom(planned, verdict, k);
            progress.killed ==> |progress.ran| < |planned| - k && verdict(k + |progress.ran|).KilledInGate?
    decreases |planned| - k
  {
    if k < |planned| && verdict(k).Pass? {
      GatesFollowPlan(planned, verdict, k + 1);
      var rest := GatesFrom(planned, verdict, k + 1).ran;
      var ran := GatesFrom(planned, verdict, k).ran;
      assert forall i | 1 <= i < |ran| :: ran[i] == rest[i - 1];
    }
  }

  /** A whole plan passes exactly when every verdict on it is a pass. */
  lemma PlanPassesIff(planned: seq<Gate>, verdict: nat -> Verdict)
    ensures var progress := GatesFrom(planned, verdict, 0);
            !progress.killed && |progress.ran| == |planned| && AllPassed(progress.ran) <==>
              forall k | 0 <= k < |planned| :: verdict(k).Pass?
  {
    GatesFollowPlan(planned, verdict, 0);
    var ran := GatesFrom(planned, verdict, 0).ran;
    if |ran| == |planned| && AllPassed(ran) {
      forall k | 0 <= k < |planned|
        ensures verdict(k).Pass?
      {
        assert ran[k] == GateReport(planned[0 + k], verdict(0 + k).Pass?);
      }
    }
  }

  lemma {:induction false} FailureAt(planned: seq<Gate>, verdict: nat -> Verdict, k: nat) returns (at: nat)
    requires k <= |planned| && !GatesFrom(planned, verdict, k).killed
    requires var ran := GatesFrom(planned, verdict, k).ran; |ran| != |planned| - k || !AllPassed(ran)
    ensures k <= at < |planned| && verdict(at).Fail? && (forall j | k <= j < at :: verdict(j).Pass?)
    ensures FirstFailed(GatesFrom(planned, verdict, k).ran) == planned[at].name
    decreases |planned| - k
  {
    if verdict(k).Fail? {
      at := k;
    } else {
      var rest := GatesFrom(planned, verdict, k + 1).ran;
      assert ([GateReport(planned[k], true)] + rest)[1..] == rest;
      at := FailureAt(planned, verdict, k + 1);
    }
  }

  /** A gate failure is reported for the first planned gate that did not pass, and that gate failed. */
  lemma FailedGateIsNamed(s: State, v: Invocation, name: string)
    requires Step(s, v).outcome == Failed(GateFailed(name))
    ensures v.planned.Got?
    ensures exists k | 0 <= k < |v.planned.value| ::
              && v.planned.value[k].name == name && v.verdict(k).Fail?
              && forall j | 0 <= j < k :: v.verdict(j).Pass?
  {
    var at := FailureAt(v.planned.value, v.verdict, 0);
  }

  lemma FreshRunIsHonest(sessions: seq<Session>, v: Invocation)
    requires v.start.Got? && v.planned.Got? && v.logs.Got?
    ensures Honest(FreshRun(sessions, v).state)
    ensures FreshRun(sessions, v).outcome.Passed? ==> Passing(FreshRun(sessions, v).state.disk)
    ensures Passing(FreshRun(sessions, v).state.disk) ==>
              FreshRun(sessions, v).outcome.Passed? || v.write.KilledAfterWrite?
  {
    GatesFollowPlan(v.planned.value, v.verdict, 0);
  }

  /** One run, however it ends, keeps the report honest. */
  lemma StepKeepsHonest(s: State, v: Invocation)
    requires Honest(s)
    ensures Honest(Step(s, v).state)
  {
    if v.start.Got? && v.planned.Got? && v.logs.Got? {
      FreshRunIsHonest(s.sessions, v);
    }
  }

  /** Over every history of runs, failures, kills and tree edits. */
  lemma {:induction false} HistoryKeepsHonest(history: seq<Invocation>)
    ensures Honest(After(history))
  {
    if |history| > 0 {
      HistoryKeepsHonest(history[..|history| - 1]);
      StepKeepsHonest(After(history[..|history| - 1]), history[|history| - 1]);
    }
  }

  lemma CompleteCovers(session: Session)
    requires Complete(session)
    ensures forall k | 0 <= k < |session.planned| :: DoneUnder(session.ran, session.planned[k])
  {
    forall k | 0 <= k < |session.planned|
      ensures DoneUnder(session.ran, session.planned[k])
    {
      assert session.ran[k].passed && session.ran[k].gate == session.planned[k];
    }
  }

  /**
   A successful check is earned. Whether it ran gates or reused the report, the latest session of all saw the
   present tree at both ends and passed its whole plan, and every gate planned now passed in it under the same key.
   */
  lemma {:induction false} SuccessIsEarned(history: seq<Invocation>, v: Invocation)
    requires !v.dry && Step(After(history), v).outcome.Passed?
    ensures v.start.Got? && v.planned.Got?
    ensures var sessions := Step(After(history), v).state.sessions;
            && sessions != []
            && var latest := sessions[|sessions| - 1];
               && latest.start == v.start.value && latest.finish == Some(v.start.value)
               && Complete(latest)
               && forall k | 0 <= k < |v.planned.value| :: DoneUnder(latest.ran, v.planned.value[k])
  {
    HistoryKeepsHonest(history);
    var s := After(history);
    if !Reuses(Previous(s.disk, v), v) {
      FreshRunIsHonest(s.sessions, v);
      var ran := GatesFrom(v.planned.value, v.verdict, 0).ran;
      CompleteCovers(Session(v.start.value, v.planned.value, ran, Some(v.start.value)));
    }
  }

  /**
   Exactly when a passing report is on disk after a non-dry run: the run succeeded, or it was killed just
   after writing one, or the old file could not be removed.
   */
  lemma PassingReportRemainsIff(s: State, v: Invocation)
    requires !v.dry
    ensures Passing(Step(s, v).state.disk) <==>
              || Step(s, v).outcome.Passed?
              || (!v.removal.Got? && Passing(s.disk))
              || (v.write.KilledAfterWrite? && WritesPassing(s, v))
  {
    if v.start.Got? && v.planned.Got? && v.logs.Got? {
      FreshRunIsHonest(s.sessions, v);
      PlanPassesIff(v.planned.value, v.verdict);
    }
  }

  /** The run gets as far as writing a report that passes. */
  ghost predicate WritesPassing(s: State, v: Invocation) {
    && !v.dry && v.removal.Got? && v.start.Got? && v.planned.Got?
    && ( || Reuses(Previous(s.disk, v), v)
         || ( && v.logs.Got? && v.finish == Got(v.start.value)
              && forall k | 0 <= k < |v.planned.value| :: v.verdict(k).Pass?))
  }

  /** A run that returns an error leaves a passing report behind only by failing to remove it. */
  lemma FailureLeavesNoPass(s: State, v: Invocation)
    requires !v.dry && Step(s, v).outcome.Failed?
    ensures Passing(Step(s, v).state.disk) <==> v.removal.Refused? && Passing(s.disk)
  {
    PassingReportRemainsIff(s, v);
  }

  /** On every tree and plan a check can succeed, whatever happened before. */
  lemma SomeCheckPasses(history: seq<Invocation>, stamp: Stamp, planned: seq<Gate>) returns (v: Invocation)
    ensures !v.dry && v.start == Got(stamp) && v.planned == Got(planned)
    ensures Step(After(history), v).outcome.Passed?
  {
    v := Invocation(false, true, true, Got(()), Got(stamp), Got(planned), Got(()), k => Pass, Got(stamp), Written);
    PlanPassesIff(planned, v.verdict);
  }

  /** The gap in "a failed run leaves no passing report": a check fails because an earlier pass cannot be removed. */
  lemma FailedRemovalKeepsPass(history: seq<Invocation>, pass: Invocation, v: Invocation)
    requires !pass.dry && Step(After(history), pass).outcome.Passed?
    requires !v.dry && v.removal.Refused?
    ensures var s := After(history + [pass]);
            Step(s, v).outcome.Failed? && Step(s, v).state == s && Passing(s.disk)
  {
    assert (history + [pass])[..|history|] == history;
    PassingReportRemainsIff(After(history), pass);
  }

  lemma DryRunChangesNothing(s: State, v: Invocation)
    requires v.dry
    ensures Step(s, v).state == s
  {
  }

  /**
   Reuse, exactly: a run that gets past its plan skips its gates if and only if it may reuse, the report on disk can
   be read and passes for the very same tree, and every planned gate passed in the latest session under the same key.
   */
  lemma {:induction false} SkipsGatesIff(history: seq<Invocation>, v: Invocation)
    requires !v.dry && v.removal.Got? && v.start.Got? && v.planned.Got? && v.logs.Got?
    ensures var s := After(history);
            Step(s, v).state.sessions == s.sessions <==>
              && !v.rerun && v.readable && Passing(s.disk) && s.disk.report.stamp == v.start.value
              && s.sessions != []
              && forall k | 0 <= k < |v.planned.value| ::
                   DoneUnder(s.sessions[|s.sessions| - 1].ran, v.planned.value[k])
  {
    HistoryKeepsHonest(history);
    var s := After(history);
    if !Reuses(Previous(s.disk, v), v) {
      assert |FreshRun(s.sessions, v).state.sessions| == |s.sessions| + 1;
    }
  }

  /** Repeating a successful check on the same tree runs nothing and succeeds again. */
  lemma {:induction false} RepeatIsFree(history: seq<Invocation>, v: Invocation, again: Invocation)
    requires !v.dry && Step(After(history), v).outcome.Passed?
    requires !again.dry && !again.rerun && again.readable && again.removal.Got? && again.write.Written?
    requires again.start == v.start && again.planned == v.planned
    ensures var s := Step(After(history), v).state;
            Step(s, again) == Effect(s, Passed)
  {
    SuccessIsEarned(history, v);
    HistoryKeepsHonest(history);
    var s := After(history);
    StepKeepsHonest(s, v);
    PassingReportRemainsIff(s, v);
  }

  // ----- what one run does, from its answers alone

  /** The session a run adds, if it runs gates at all: what the answers say, up to the first gate that did not pass. */
  ghost predicate TrueSession(v: Invocation, x: Session) {
    && v.start == Got(x.start) && v.planned == Got(x.planned)
    && exists killed: bool ::
         && TrueRun(x.planned, v.verdict, Progress(x.ran, killed))
         && x.finish == if killed || !v.finish.Got? then None else Some(v.finish.value)
  }

  /** What ran, from the start of the plan. */
  ghost predicate TrueRun(planned: seq<Gate>, verdict: nat -> Verdict, progress: Progress) {
    && |progress.ran| <= |planned|
    && (forall k | 0 <= k < |progress.ran| :: progress.ran[k] == GateReport(planned[k], verdict(k).Pass?))
    && (forall k | 0 <= k < |progress.ran| - 1 :: progress.ran[k].passed)
    && (if progress.killed then |progress.ran| < |planned| && verdict(|progress.ran|).KilledInGate?
        else |progress.ran| < |planned| ==> |progress.ran| > 0 && verdict(|progress.ran| - 1).Fail?)
  }

  lemma RunIsTrue(planned: seq<Gate>, verdict: nat -> Verdict)
    ensures TrueRun(planned, verdict, GatesFrom(planned, verdict, 0))
  {
    GatesFollowPlan(planned, verdict, 0);
    LastRanIs(planned, verdict, 0);
    var ran := GatesFrom(planned, verdict, 0).ran;
    forall k | 0 <= k < |ran|
      ensures ran[k] == GateReport(planned[k], verdict(k).Pass?)
    {
      assert ran[k] == GateReport(planned[0 + k], verdict(0 + k).Pass?);
    }
  }

  lemma FreshSessionIsTrue(sessions: seq<Session>, v: Invocation)
    requires v.start.Got? && v.planned.Got? && v.logs.Got?
    ensures var after := FreshRun(sessions, v).state.sessions;
            |after| == |sessions| + 1 && after[..|sessions|] == sessions && TrueSession(v, after[|sessions|])
  {
    RunIsTrue(v.planned.value, v.verdict);
  }

  /** A run adds no session, or the true one. */
  lemma SessionsAreTrue(s: State, v: Invocation)
    ensures var after := Step(s, v).state.sessions;
            || after == s.sessions
            || ( && |after| == |s.sessions| + 1 && after[..|s.sessions|] == s.sessions
                 && TrueSession(v, after[|s.sessions|]))
  {
    if v.start.Got? && v.planned.Got? && v.logs.Got? {
      FreshSessionIsTrue(s.sessions, v);
    }
  }

  lemma {:induction false} LastRanIs(planned: seq<Gate>, verdict: nat -> Verdict, k: nat)
    requires k <= |planned|
    ensures var progress := GatesFrom(planned, verdict, k);
            !progress.killed && |progress.ran| < |planned| - k ==>
              |progress.ran| > 0 && verdict(k + |progress.ran| - 1).Fail?
    ensures var progress := GatesFrom(planned, verdict, k);
            progress.killed ==> |progress.ran| < |planned| - k && verdict(k + |progress.ran|).KilledInGate?
    decreases |planned| - k
  {
    if k < |planned| && verdict(k).Pass? {
      LastRanIs(planned, verdict, k + 1);
    }
  }

  /** A dry run succeeds iff it can stamp the tree and plan. */
  lemma DryRunPassesIff(s: State, v: Invocation)
    requires v.dry
    ensures Step(s, v).outcome.Passed? <==> v.start.Got? && v.planned.Got?
  {
  }

  /** Any other run succeeds iff it comes to write a passing report and the write is completed. */
  lemma RunPassesIff(s: State, v: Invocation)
    requires !v.dry
    ensures Step(s, v).outcome.Passed? <==> v.write.Written? && WritesPassing(s, v)
  {
    if v.start.Got? && v.planned.Got? && v.logs.Got? {
      PlanPassesIff(v.planned.value, v.verdict);
    }
  }

  /** The tree is reported stale iff gates ran without a kill and the second stamp differs from the first. */
  lemma StaleIff(s: State, v: Invocation)
    ensures Step(s, v).outcome == Failed(StaleTree) <==>
              && !v.dry && v.removal.Got? && v.start.Got? && v.planned.Got? && v.logs.Got?
              && !Reuses(Previous(s.disk, v), v)
              && !GatesFrom(v.planned.value, v.verdict, 0).killed
              && v.finish.Got? && v.finish.value != v.start.value
  {
  }

  /** What is on disk after a run that removed the old report: nothing, what was written, or half of it. */
  lemma DiskAfter(s: State, v: Invocation)
    requires !v.dry && v.removal.Got?
    ensures var disk := Step(s, v).state.disk;
            && (disk.Saved? ==> v.write.Written? || v.write.KilledAfterWrite?)
            && (disk.Corrupt? ==> v.write == WriteFailed(true) || v.write == KilledWriting(true))
            && (disk.Absent? ==>
                  || Step(s, v).outcome == Failed(StaleTree)
                  || v.write == WriteFailed(false) || v.write == KilledWriting(false)
                  || Refusal(v) || KilledRunning(v))
  {
    if v.planned.Got? {
      LastRanIs(v.planned.value, v.verdict, 0);
    }
  }

  /** One of the answers before the write was not given. */
  ghost predicate Refusal(v: Invocation) {
    !v.start.Got? || !v.planned.Got? || !v.logs.Got? || !v.finish.Got?
  }

  ghost predicate KilledRunning(v: Invocation) {
    v.planned.Got? && exists k :: 0 <= k < |v.planned.value| && v.verdict(k).KilledInGate?
  }

  /** A run is dead iff it was killed somewhere on its way; no refusal or failure is taken for it. */
  lemma DeadMeansKilled(s: State, v: Invocation)
    requires Step(s, v).outcome.Dead?
    ensures || v.removal.Killed? || v.start.Killed? || v.planned.Killed? || v.logs.Killed? || v.finish.Killed?
            || v.write.KilledWriting? || v.write.KilledAfterWrite? || KilledRunning(v)
  {
    if v.planned.Got? {
      LastRanIs(v.planned.value, v.verdict, 0);
    }
  }
}
