/**
 The session runtime as a headless client sees it: a durable, append-only event log whose
 oldest entries expire, the tool calls held for approval, and the tree of sessions below the
 root session. Log positions count from 1; the entry at position p is log[p - 1].
 */
module EventLog {
  import opened Options

  type SessionId = nat
  type RunId = nat
  type CallId = nat

  datatype RunOutcome =
    | Completed
    | Failed(server: bool)
    | BudgetExhausted(duration: bool)
    | Cancelled
    | Paused
    | Interrupted

  datatype FinalOutput = Valid | Invalid

  datatype Call = Call(id: CallId, session: SessionId, run: RunId)

  datatype Event =
    | ApprovalRequested(call: Call, question: bool)
    | RunFinished(run: RunId, outcome: RunOutcome, output: Option<FinalOutput>)
    | Progress

  datatype Envelope = Envelope(session: SessionId, run: Option<RunId>, event: Event)

  /** A call awaiting approval. Its request event is the log entry at `position`. */
  datatype Hold = Hold(call: Call, question: bool, preview: bool, position: nat)

  /** Entries up to and including `floor` have expired. */
  datatype Runtime = Runtime(
    log: seq<Envelope>,
    floor: nat,
    holds: map<CallId, Hold>,
    family: set<SessionId>)

  /** What the runtime may do on its own between any two steps of a client. */
  datatype Change =
    | Append(envelope: Envelope)
    | Raise(call: Call, question: bool, preview: bool)
    | Resolve(id: CallId)
    | Expire(upTo: nat)
    | Spawn(session: SessionId)

  predicate TerminalAt(log: seq<Envelope>, run: RunId, p: nat) {
    1 <= p <= |log| && log[p - 1].event.RunFinished? && log[p - 1].event.run == run
  }

  ghost predicate Finished(log: seq<Envelope>, run: RunId) {
    exists p :: TerminalAt(log, run, p)
  }

  function RequestEnvelope(call: Call, question: bool): Envelope {
    Envelope(call.session, Some(call.run), ApprovalRequested(call, question))
  }

  /** A run finishes at most once, and a session joins the tree before any of its calls is held. */
  ghost predicate Allowed(run: RunId, r: Runtime, c: Change) {
    match c
    case Append(e) =>
      e.event.RunFinished? && e.event.run == run ==> !Finished(r.log, run)
    case Raise(call, _, _) => call.id !in r.holds
    case Resolve(id) => id in r.holds
    case Expire(upTo) => r.floor <= upTo <= |r.log|
    case Spawn(session) =>
      forall id | id in r.holds :: r.holds[id].call.session != session
  }

  function Evolve(r: Runtime, c: Change): Runtime {
    match c
    case Append(e) => r.(log := r.log + [e])
    case Raise(call, question, preview) =>
      r.(log := r.log + [RequestEnvelope(call, question)],
         holds := r.holds[call.id := Hold(call, question, preview, |r.log| + 1)])
    case Resolve(id) => r.(holds := r.holds - {id})
    case Expire(upTo) => r.(floor := upTo)
    case Spawn(session) => r.(family := r.family + {session})
  }

  ghost predicate HoldRecorded(log: seq<Envelope>, hold: Hold) {
    1 <= hold.position <= |log| &&
    log[hold.position - 1] == RequestEnvelope(hold.call, hold.question)
  }

  ghost predicate RuntimeOk(run: RunId, r: Runtime) {
    && r.floor <= |r.log|
    && (forall id | id in r.holds :: r.holds[id].call.id == id && HoldRecorded(r.log, r.holds[id]))
    && (forall p, q :: TerminalAt(r.log, run, p) && TerminalAt(r.log, run, q) ==> p == q)
  }

  /** Appending moves no entry: a position's event never changes once written. */
  lemma AppendKeepsPositions(log: seq<Envelope>, e: Envelope, run: RunId)
    ensures forall p :: TerminalAt(log + [e], run, p) <==>
                        TerminalAt(log, run, p) ||
                        (p == |log| + 1 && e.event.RunFinished? && e.event.run == run)
    ensures forall hold :: HoldRecorded(log, hold) ==> HoldRecorded(log + [e], hold)
  {
  }

  lemma EvolveKeepsRuntimeOk(run: RunId, r: Runtime, c: Change)
    requires RuntimeOk(run, r) && Allowed(run, r, c)
    ensures RuntimeOk(run, Evolve(r, c))
    ensures r.log <= Evolve(r, c).log
    ensures forall p :: TerminalAt(r.log, run, p) ==> TerminalAt(Evolve(r, c).log, run, p)
    ensures forall p :: TerminalAt(Evolve(r, c).log, run, p) ==> TerminalAt(r.log, run, p) || |r.log| < p
  {
    match c
    case Append(e) =>
      AppendKeepsPositions(r.log, e, run);
    case Raise(call, question, preview) =>
      AppendKeepsPositions(r.log, RequestEnvelope(call, question), run);
    case _ =>
  }

  // ----- expiry

  /** The first position that is still kept. */
  function Oldest(r: Runtime): Option<nat> {
    if r.floor < |r.log| then Some(r.floor + 1) else None
  }

  /** The journal refuses a cursor when something after it is gone. */
  predicate CursorExpires(r: Runtime, after: nat) {
    match Oldest(r)
    case None => after < |r.log|
    case Some(first) => after < if first == 0 then 0 else first - 1
  }

  /** Refused exactly when the next event is gone, so a reader that is not refused misses nothing. */
  lemma ExpiresIffNextIsGone(r: Runtime, after: nat)
    requires r.floor <= |r.log|
    ensures CursorExpires(r, after) <==> after < r.floor
  {
  }
}
