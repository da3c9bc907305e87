/** The coordinator's tables and the writes that change them: executions, their attempts, the owner
    pointers, the wake claims each execution answers, and the recovery audit. Every write is one
    transaction, so it is a function from a state to the next state and an answer.

    Sources: src/agent_comms/attempt_start.py, attempt_store.py, attempt_recovery.py,
    execution_states.py, execution_store.py, participant_store.py, coordination/snapshot.py and the
    row guards of coordination/tables.
 */
module Coordinators {
  import opened Options
  import A = Attempts
  import C = Claims

  const INITIAL_LEASE_DURATION_MS := 60000

  datatype Origin = WireOrigin | ClaimlessOrigin

  datatype Lifecycle =
    | QueuedExecution
    | PendingExecution
    | ActiveExecution(ordinal: nat)
    | DeferredExecution(ordinal: nat)
    | CompletedExecution(ordinal: nat)
    | FailedExecution(last: Option<nat>)

  // The latest attempt, or zero before the first.
  function Last(l: Lifecycle): nat {
    match l
    case ActiveExecution(n) => n
    case DeferredExecution(n) => n
    case CompletedExecution(n) => n
    case FailedExecution(Some(n)) => n
    case _ => 0
  }

  predicate StartsAttempt(l: Lifecycle) {
    l.PendingExecution? || l.DeferredExecution?
  }

  predicate TerminalExecution(l: Lifecycle) {
    l.CompletedExecution? || l.FailedExecution?
  }

  // The state every claim of an execution is in.
  function ClaimKind(l: Lifecycle): C.Kind {
    match l
    case DeferredExecution(_) => C.DeferredKind
    case CompletedExecution(_) => C.CompletedKind
    case FailedExecution(_) => C.FailedKind
    case _ => C.EngagedKind
  }

  datatype Response =
    | PendingResponse | PublishingResponse | DeferredResponse | PublishedResponse | SilentResponse | FailedResponse

  predicate Retryable(r: Response) {
    r.PendingResponse? || r.DeferredResponse?
  }

  predicate Successful(r: Response) {
    r.PublishedResponse? || r.SilentResponse?
  }

  datatype Fact =
    | AssistantOutput | ThinkingOutput | ToolCallStarted | ToolExecuted | InputForwarded
    | CompactionFact | ProjectEffects | WireEffects | ExtensionEffects | UnknownEffects

  datatype Replay = NoAssessment | Assessed(facts: set<Fact>, safe: bool, sideEffects: bool)

  predicate AllowsRetry(r: Replay) {
    r.Assessed? && r.safe && r.facts == {} && !r.sideEffects
  }

  // Any observed fact revokes safety for good.
  function Accumulated(r: Replay, observed: set<Fact>): Replay {
    if observed == {} then r
    else Assessed((if r.Assessed? then r.facts else {}) + observed, false, true)
  }

  // What a failure says about retrying: nothing, a transient refusal, or a failure that must not repeat.
  datatype RetryProof = NoFailure | Transient | Nonretryable

  function Prepared(r: Replay, proof: RetryProof): Replay {
    match proof
    case NoFailure => r
    case Transient => if r.NoAssessment? then Assessed({}, true, false) else r
    case Nonretryable => if r.Assessed? && r.safe then r.(safe := false) else r
  }

  function Contribution(outcome: A.Outcome): set<Fact> {
    if outcome.UnknownOutcome? then {UnknownEffects} else {}
  }

  datatype Execution = Execution(
    origin: Origin, owner: string, maxAttempts: nat, createdAt: nat, claims: seq<string>,
    lifecycle: Lifecycle, revision: nat, updatedAt: nat, replay: Replay,
    obligations: map<string, Response>, intents: set<string>)

  type Key = (string, nat)

  datatype AttemptRow = AttemptRow(
    owner: string, generation: nat, digest: string, createdAt: nat, state: A.Attempt, revision: nat)

  // A participant and its pointer to the attempt it is running.
  datatype Owner = Owner(committed: bool, generation: nat, pointer: Option<Key>, pointerRevision: nat)

  datatype Audit = Audit(key: Key, deferred: bool)

  datatype State = State(
    owners: map<string, Owner>, executions: map<string, Execution>, attempts: map<Key, AttemptRow>,
    claims: C.Table, audits: seq<Audit>)

  const EMPTY := State(map[], map[], map[], map[], [])

  datatype Refusal =
    | UnknownExecution | UnknownOwner | UnknownClaim | StaleFence | StaleRevision | IdentityConflict
    | RecoveryBlocked | PublicationUncertain | ResponseBlocked | IntegrityViolation

  // The authority of one attempt, and the revision its holder last saw.
  datatype Fence = Fence(execution: string, ordinal: nat, owner: string, generation: nat, digest: string, revision: nat)

  datatype Answer = Applied | Started(fence: Fence) | AlreadyApplied | Replayed(fence: Fence) | Refused(why: Refusal)

  datatype Outcome = Outcome(state: State, answer: Answer)

  function Refuse(s: State, why: Refusal): Outcome {
    Outcome(s, Refused(why))
  }

  function Max(a: nat, b: nat): nat {
    if a < b then b else a
  }

  predicate IsCurrent(s: State, e: string) {
    && e in s.executions
    && s.executions[e].owner in s.owners
    && var p := s.owners[s.executions[e].owner].pointer;
       p.Some? && p.value.0 == e
  }

  predicate RetryAuthorized(x: Execution) {
    && 0 < Last(x.lifecycle) < x.maxAttempts
    && AllowsRetry(x.replay)
    && (x.origin.WireOrigin? ==> x.obligations.Keys != {} && forall t :: t in x.obligations
                                                                         ==> Retryable(x.obligations[t]))
  }

  // ---- Starting an attempt ---------------------------------------------------------------------

  datatype AttemptStart = AttemptStart(
    execution: string, ordinal: nat, owner: string, generation: nat, digest: string,
    expectedExecutionRevision: nat, expectedPointerRevision: nat)

  function FenceFor(r: AttemptStart, revision: nat): Fence {
    Fence(r.execution, r.ordinal, r.owner, r.generation, r.digest, revision)
  }

  // The first reason a request is refused, in the order the checks run.
  function StartRefusal(s: State, r: AttemptStart): Option<Refusal>
    requires r.execution in s.executions && s.executions[r.execution].owner in s.owners
  {
    var x := s.executions[r.execution];
    var p := s.owners[x.owner];
    var previous := (r.execution, Last(x.lifecycle));
    if !p.committed || x.owner != r.owner || p.generation != r.generation then Some(StaleFence)
    else if x.revision != r.expectedExecutionRevision || p.pointerRevision != r.expectedPointerRevision
        then Some(StaleRevision)
    else if p.pointer.Some? then Some(StaleFence)
    else if !StartsAttempt(x.lifecycle) then Some(IdentityConflict)
    else if x.intents != {} then Some(PublicationUncertain)
    else if x.lifecycle.DeferredExecution?
            && !(RetryAuthorized(x) && previous in s.attempts
                 && s.attempts[previous].state == A.TerminalAttempt(A.AttemptFailed))
    then Some(RecoveryBlocked)
    else if Last(x.lifecycle) + 1 != r.ordinal then Some(IdentityConflict)
    else if r.ordinal > x.maxAttempts then Some(RecoveryBlocked)
    else if previous in s.attempts && r.generation <= s.attempts[previous].generation then Some(StaleFence)
    else None
  }

  function Resumed(obligations: map<string, Response>): map<string, Response> {
    map t | t in obligations :: if obligations[t].DeferredResponse? then PendingResponse else obligations[t]
  }

  // Rebuild the claims of one execution in another state, with their own mode and binding.
  function Reclaimed(claims: C.Table, members: seq<string>, kind: C.Kind): C.Table {
    map id | id in claims ::
      if id in members then ReclaimedRow(claims[id], kind) else claims[id]
  }

  function ReclaimedRow(row: C.Row, kind: C.Kind): C.Row {
    var built := C.Build(kind, C.ModeOf(row.claim), C.ExecutionOf(row.claim), C.TargetOf(row.claim));
    if built.Some? then row.(claim := built.value, revision := row.revision + 1) else row
  }

  function Activated(s: State, r: AttemptStart, now: nat): State
    requires r.execution in s.executions && s.executions[r.execution].owner in s.owners
  {
    var x := s.executions[r.execution];
    var p := s.owners[x.owner];
    var created := Max(now, x.updatedAt);
    var row := AttemptRow(x.owner, r.generation, r.digest, created, A.Started(created + INITIAL_LEASE_DURATION_MS), 1);
    State(
      s.owners[x.owner := p.(pointer := Some((r.execution, r.ordinal)), pointerRevision := p.pointerRevision + 1)],
      s.executions[r.execution := x.(lifecycle := ActiveExecution(r.ordinal), revision := x.revision + 1,
                                     updatedAt := created, obligations := Resumed(x.obligations))],
      s.attempts[(r.execution, r.ordinal) := row],
      if x.lifecycle.DeferredExecution? then Reclaimed(s.claims, x.claims, C.EngagedKind) else s.claims,
      s.audits)
  }

  predicate TokenIssued(s: State, digest: string) {
    exists k :: k in s.attempts && s.attempts[k].digest == digest
  }

  // The attempt of this execution a token was issued for.
  predicate IssuedFor(s: State, e: string, digest: string, k: Key) {
    k in s.attempts && k.0 == e && s.attempts[k].digest == digest
  }

  // A replay compares the attempt's creation identity, never its phase or revision.
  predicate SameCreation(s: State, r: AttemptStart, k: Key)
    requires k in s.attempts && r.execution in s.executions
  {
    var row := s.attempts[k];
    k.1 == r.ordinal && row.owner == r.owner && row.generation == r.generation
    && row.createdAt >= s.executions[r.execution].createdAt
  }

  ghost function Start(s: State, r: AttemptStart, now: nat): Outcome {
    if r.execution !in s.executions then Refuse(s, UnknownExecution)
    else if s.executions[r.execution].owner !in s.owners then Refuse(s, UnknownOwner)
    else if exists k :: IssuedFor(s, r.execution, r.digest, k) then
      var k :| IssuedFor(s, r.execution, r.digest, k);
      if SameCreation(s, r, k) then Outcome(s, Replayed(FenceFor(r, s.attempts[k].revision)))
      else Refuse(s, IdentityConflict)
    else if TokenIssued(s, r.digest) then Refuse(s, IdentityConflict)
    else if StartRefusal(s, r).Some? then Refuse(s, StartRefusal(s, r).value)
    else Outcome(Activated(s, r, now), Started(FenceFor(r, 1)))
  }

  // ---- Acting under a fence ----------------------------------------------------------------------

  function FenceRefusal(s: State, f: Fence): Option<Refusal> {
    if f.execution !in s.executions then Some(UnknownExecution)
    else
      var k := (f.execution, Last(s.executions[f.execution].lifecycle));
      if !IsCurrent(s, f.execution) || k !in s.attempts || s.attempts[k].owner !in s.owners then Some(StaleFence)
      else
        var row := s.attempts[k];
        if (f.ordinal, f.owner, f.generation, f.digest) != (k.1, row.owner, row.generation, row.digest)
            then Some(StaleFence)
        else if s.owners[row.owner].generation != row.generation then Some(StaleFence)
        else if f.revision != row.revision then Some(StaleRevision)
        else None
  }

  predicate Fenced(s: State, f: Fence) {
    FenceRefusal(s, f).None?
  }

  function CurrentKey(s: State, e: string): Key
    requires e in s.executions
  {
    (e, Last(s.executions[e].lifecycle))
  }

  function PointerRevision(s: State, e: string): nat
    requires e in s.executions && s.executions[e].owner in s.owners
  {
    s.owners[s.executions[e].owner].pointerRevision
  }

  function WithAttempt(s: State, k: Key, state: A.Attempt): State
    requires k in s.attempts
  {
    s.(attempts := s.attempts[k := s.attempts[k].(state := state, revision := s.attempts[k].revision + 1)])
  }

  function WithReplay(s: State, e: string, replay: Replay): State
    requires e in s.executions
  {
    s.(executions := s.executions[e := s.executions[e].(replay := replay)])
  }

  function Advance(s: State, f: Fence, phase: A.Phase, backendDone: bool, processDead: bool, progress: bool,
                   expectedPointerRevision: nat): Outcome {
    if phase.Ended? then Refuse(s, IdentityConflict)
    else if FenceRefusal(s, f).Some? then Refuse(s, FenceRefusal(s, f).value)
    else if PointerRevision(s, f.execution) != expectedPointerRevision then Refuse(s, StaleRevision)
    else
      var k := CurrentKey(s, f.execution);
      match A.Observe(s.attempts[k].state, phase, backendDone, processDead, progress)
      case Observed(a) =>
        Outcome(WithAttempt(s, k, a), Started(f.(revision := s.attempts[k].revision + 1)))
      case EdgeNotDeclared => Refuse(s, IdentityConflict)
      case FinalEvidence => Refuse(s, RecoveryBlocked)
      case LeaseHeld => Refuse(s, IntegrityViolation)
  }

  // ---- Settlement ----------------------------------------------------------------------------------

  // What an outcome makes of its execution and responses.
  function Disposition(x: Execution, outcome: A.Outcome): (Lifecycle, Response) {
    var n := Last(x.lifecycle);
    match outcome
    case Succeeded => (CompletedExecution(n), SilentResponse)
    case AttemptFailed => if RetryAuthorized(x) then (DeferredExecution(n), DeferredResponse)
        else (FailedExecution(Some(n)), FailedResponse)
    case UnknownOutcome => (FailedExecution(Some(n)), FailedResponse)
  }

  function All(obligations: map<string, Response>, response: Response): map<string, Response> {
    map t | t in obligations :: response
  }

  // The attempt ends, its execution and claims follow, and the pointer is cleared.
  function Ended(s: State, e: string, outcome: A.Outcome, after: Execution): State
    requires e in s.executions && s.executions[e].owner in s.owners && CurrentKey(s, e) in s.attempts
  {
    var x := s.executions[e];
    var p := s.owners[x.owner];
    var ended := WithAttempt(s, CurrentKey(s, e), A.TerminalAttempt(outcome));
    State(
      s.owners[x.owner := p.(pointer := None, pointerRevision := p.pointerRevision + 1)],
      s.executions[e := after],
      ended.attempts,
      Reclaimed(s.claims, x.claims, ClaimKind(after.lifecycle)),
      s.audits)
  }

  function SettledExecution(x: Execution, outcome: A.Outcome, now: nat): Execution {
    var (lifecycle, response) := Disposition(x, outcome);
    x.(lifecycle := lifecycle, revision := x.revision + 1, updatedAt := Max(now, x.updatedAt),
       replay := Accumulated(x.replay, Contribution(outcome)), obligations := All(x.obligations, response))
  }

  function SettleRefusal(s: State, e: string, outcome: A.Outcome): Option<Refusal>
    requires e in s.executions
  {
    var x := s.executions[e];
    var k := CurrentKey(s, e);
    if x.intents != {} then Some(PublicationUncertain)
    else if !IsCurrent(s, e) || k !in s.attempts || !A.Final(s.attempts[k].state) then Some(RecoveryBlocked)
    else if outcome.Succeeded? && s.attempts[k].state.LiveAttempt? && !s.attempts[k].state.phase.Settling?
        then Some(IdentityConflict)
    else if outcome.Succeeded? && exists t :: t in x.obligations && !Retryable(x.obligations[t])
        then Some(IdentityConflict)
    // a row guard: a wire execution completes only with every response successful already
    else if outcome.Succeeded? && exists t :: t in x.obligations && !Successful(x.obligations[t])
        then Some(IntegrityViolation)
    else None
  }

  function Settle(s: State, e: string, outcome: A.Outcome, now: nat): Outcome
    requires e in s.executions && s.executions[e].owner in s.owners
  {
    if SettleRefusal(s, e, outcome).Some? then Refuse(s, SettleRefusal(s, e, outcome).value)
    else Outcome(Ended(s, e, outcome, SettledExecution(s.executions[e], outcome, now)), Applied)
  }

  // A refusal inside a transaction takes back what it had written.
  function Atomic(before: State, o: Outcome): Outcome {
    if o.answer.Refused? then Refuse(before, o.answer.why) else o
  }

  function FailUnknown(s: State, f: Fence, expectedPointerRevision: nat, now: nat): Outcome {
    if FenceRefusal(s, f).Some? then Refuse(s, FenceRefusal(s, f).value)
    else if PointerRevision(s, f.execution) != expectedPointerRevision then Refuse(s, StaleRevision)
    else if s.executions[f.execution].intents != {} then Refuse(s, PublicationUncertain)
    else
      var k := CurrentKey(s, f.execution);
      var a := s.attempts[k].state;
      if A.Final(a) then Settle(s, f.execution, A.UnknownOutcome, now)
      else
        var r := A.Observe(a, A.PhaseOf(a), true, true, false);
        if r.Observed? then Atomic(s, Settle(WithAttempt(s, k, r.attempt), f.execution, A.UnknownOutcome, now))
        else Refuse(s, RecoveryBlocked)
  }

  function SettleNonpublication(s: State, f: Fence, outcome: A.Outcome, proof: RetryProof,
                                expectedPointerRevision: nat, now: nat): Outcome {
    if FenceRefusal(s, f).Some? then Refuse(s, FenceRefusal(s, f).value)
    else if PointerRevision(s, f.execution) != expectedPointerRevision then Refuse(s, StaleRevision)
    else
      var prepared := WithReplay(s, f.execution, Prepared(s.executions[f.execution].replay, proof));
      Atomic(s, Settle(prepared, f.execution, outcome, now))
  }

  // ---- The recovery monitor ----------------------------------------------------------------------------

  datatype StopReason = UnknownStop | FailedStop | FinishedStop

  function RecoveredOutcome(stop: StopReason): A.Outcome {
    if stop.UnknownStop? then A.UnknownOutcome else A.AttemptFailed
  }

  function RecoveredFacts(stop: StopReason): set<Fact> {
    match stop
    case UnknownStop => {UnknownEffects}
    case FailedStop => {}
    case FinishedStop => {AssistantOutput}
  }

  // What a monitor names and saw: the attempt, the revisions it read, and whether its owner-loss
  // proof was issued for this store and this attempt.
  datatype MonitorCall = MonitorCall(
    execution: string, ordinal: nat, generation: nat,
    attemptRevision: nat, executionRevision: nat, pointerRevision: nat,
    subprocessDead: bool, backendDone: bool, stop: StopReason, lossIssued: bool, lossOwns: bool)

  function MonitorRefusal(s: State, m: MonitorCall): Option<Refusal> {
    if !m.subprocessDead || !m.lossIssued then Some(RecoveryBlocked)
    else if m.execution !in s.executions then Some(UnknownExecution)
    else
      var x := s.executions[m.execution];
      var k := CurrentKey(s, m.execution);
      if !IsCurrent(s, m.execution) || k !in s.attempts || k.1 != m.ordinal || s.attempts[k].generation != m.generation
      then Some(StaleFence)
      else if (s.attempts[k].revision, x.revision, PointerRevision(s, m.execution))
              != (m.attemptRevision, m.executionRevision, m.pointerRevision) then Some(StaleRevision)
      else if !m.lossOwns then Some(RecoveryBlocked)
      else None
  }

  // The death, and any completion and output the monitor saw: committed whatever follows.
  function Recorded(s: State, m: MonitorCall): State
    requires m.execution in s.executions && CurrentKey(s, m.execution) in s.attempts
  {
    var k := CurrentKey(s, m.execution);
    WithAttempt(WithReplay(s, m.execution, Accumulated(s.executions[m.execution].replay, RecoveredFacts(m.stop))),
                k, A.Record(s.attempts[k].state, m.backendDone))
  }

  function Terminalize(s: State, m: MonitorCall, now: nat): Outcome {
    if MonitorRefusal(s, m).Some? then Refuse(s, MonitorRefusal(s, m).value)
    else
      var recorded := Recorded(s, m);
      var x := s.executions[m.execution];
      var done := A.BackendDone(s.attempts[CurrentKey(s, m.execution)].state) || m.backendDone;
      if done && x.intents == {} then
        var settled := Settle(recorded, m.execution, RecoveredOutcome(m.stop), now);
        if settled.answer.Refused? then Refuse(s, settled.answer.why)
        else
          var after := settled.state;
          Outcome(after.(audits := after.audits + [Audit((m.execution, m.ordinal),
              after.executions[m.execution].lifecycle.DeferredExecution?)]), Applied)
      else if done then Refuse(recorded, PublicationUncertain)
      else Refuse(recorded, RecoveryBlocked)
  }

  // ---- Publishing responses -----------------------------------------------------------------------------

  function PublicationRefusal(s: State, f: Fence, target: string): Option<Refusal> {
    if FenceRefusal(s, f).Some? then FenceRefusal(s, f)
    else if !s.executions[f.execution].lifecycle.ActiveExecution?
        || !A.ReadyToSucceed(s.attempts[CurrentKey(s, f.execution)].state)
    then Some(ResponseBlocked)
    else if target !in s.executions[f.execution].obligations then Some(IdentityConflict)
    else None
  }

  function WithResponse(x: Execution, target: string, response: Response): Execution {
    x.(obligations := x.obligations[target := response])
  }

  // Freeze the reply of one route; the same route twice changes nothing.
  function Freeze(s: State, f: Fence, target: string): Outcome {
    if PublicationRefusal(s, f, target).Some? then Refuse(s, PublicationRefusal(s, f, target).value)
    else
      var x := s.executions[f.execution];
      if target in x.intents then Outcome(s, AlreadyApplied)
      else if !x.obligations[target].PendingResponse? then Refuse(s, IdentityConflict)
      else
        var frozen := WithResponse(x, target, PublishingResponse).(intents := x.intents + {target});
        Outcome(s.(executions := s.executions[f.execution := frozen]), Applied)
  }

  // Record one route's bus acknowledgement; the last one completes the execution.
  function Acknowledge(s: State, f: Fence, target: string, now: nat): Outcome {
    if PublicationRefusal(s, f, target).Some? then Refuse(s, PublicationRefusal(s, f, target).value)
    else
      var x := s.executions[f.execution];
      if x.intents != x.obligations.Keys || !x.obligations[target].PublishingResponse? then Refuse(s, IdentityConflict)
      else
        var published := WithResponse(x, target, PublishedResponse);
        if forall t :: t in published.obligations ==> published.obligations[t].PublishedResponse? then
          var completed := published.(lifecycle := CompletedExecution(Last(x.lifecycle)), revision := x.revision + 1,
                                      updatedAt := Max(now, x.updatedAt));
          Outcome(Ended(s, f.execution, A.Succeeded, completed), Applied)
        else Outcome(s.(executions := s.executions[f.execution := published]), Applied)
  }

  // Facts streamed while an attempt runs.
  function ObserveFacts(s: State, f: Fence, facts: set<Fact>): Outcome {
    if FenceRefusal(s, f).Some? then Refuse(s, FenceRefusal(s, f).value)
    else Outcome(WithReplay(s, f.execution, Accumulated(s.executions[f.execution].replay, facts)), Applied)
  }

  // ---- Executions and participants --------------------------------------------------------------------------

  datatype Creation = Creation(execution: string, origin: Origin, owner: string, maxAttempts: nat,
                               sources: seq<(string, string)>)

  function Members(sources: seq<(string, string)>): (ids: seq<string>)
    ensures |ids| == |sources| && forall i :: 0 <= i < |ids| ==> ids[i] == sources[i].0
  {
    seq(|sources|, i requires 0 <= i < |sources| => sources[i].0)
  }

  predicate Distinct(ids: seq<string>) {
    forall i, j :: 0 <= i < j < |ids| ==> ids[i] != ids[j]
  }

  function ReplyTargets(sources: seq<(string, string)>): set<string> {
    set i | 0 <= i < |sources| :: sources[i].1
  }

  function Routes(sources: seq<(string, string)>): map<string, Response> {
    map t | t in ReplyTargets(sources) :: PendingResponse
  }

  function TargetFor(sources: seq<(string, string)>, id: string): string
    requires id in Members(sources)
    decreases |sources|
  {
    if sources[0].0 == id then sources[0].1
    else
      assert id in Members(sources[1..]) by {
        var i :| 0 <= i < |sources| && Members(sources)[i] == id;
        assert Members(sources[1..])[i - 1] == id;
      }
      TargetFor(sources[1..], id)
  }

  predicate SourceEngageable(s: State, c: Creation, i: nat)
    requires i < |c.sources|
  {
    var (id, target) := c.sources[i];
    && id in s.claims
    && C.Engageable(s.claims[id].claim) && !C.Bound(s.claims[id].claim)
    && C.Active(C.ModeOf(s.claims[id].claim))
    && s.claims[id].recipient == c.owner
    && target != ""
  }

  function CreationRefusal(s: State, c: Creation): Option<Refusal> {
    if (c.origin.WireOrigin? && c.sources == []) || (c.origin.ClaimlessOrigin? && c.sources != [])
        then Some(IdentityConflict)
    else if c.owner !in s.owners then Some(UnknownOwner)
    else if !s.owners[c.owner].committed || c.maxAttempts == 0 || c.execution == "" then Some(IdentityConflict)
    else if !Distinct(Members(c.sources)) then Some(IdentityConflict)
    else if exists i :: 0 <= i < |c.sources| && !SourceEngageable(s, c, i) then Some(IdentityConflict)
    else None
  }

  function EngagedWith(claims: C.Table, c: Creation): C.Table {
    map id | id in claims ::
      if id in Members(c.sources)
      then claims[id].(claim := C.Engaged(C.Engagement(C.ModeOf(claims[id].claim), c.execution,
          TargetFor(c.sources, id))),
                       revision := claims[id].revision + 1)
      else claims[id]
  }

  predicate SameIdentity(x: Execution, c: Creation) {
    (x.origin, x.owner, x.maxAttempts, x.claims) == (c.origin, c.owner, c.maxAttempts, Members(c.sources))
    && x.obligations.Keys == Routes(c.sources).Keys
  }

  function Create(s: State, c: Creation, now: nat): Outcome {
    if c.execution in s.executions then
      if SameIdentity(s.executions[c.execution], c) then Outcome(s, AlreadyApplied) else Refuse(s, IdentityConflict)
    else if CreationRefusal(s, c).Some? then Refuse(s, CreationRefusal(s, c).value)
    else
      var x := Execution(c.origin, c.owner, c.maxAttempts, now, Members(c.sources), QueuedExecution, 1, now,
          NoAssessment, Routes(c.sources), {});
      Outcome(s.(executions := s.executions[c.execution := x], claims := EngagedWith(s.claims, c)), Applied)
  }

  function MarkPending(s: State, e: string, expectedRevision: nat, now: nat): Outcome {
    if e !in s.executions then Refuse(s, UnknownExecution)
    else
      var x := s.executions[e];
      if x.revision != expectedRevision then Refuse(s, StaleRevision)
      else if !x.lifecycle.QueuedExecution? then Refuse(s, IdentityConflict)
      else Outcome(s.(executions := s.executions[e := x.(lifecycle := PendingExecution, revision := x.revision + 1,
                                                         updatedAt := Max(now, x.updatedAt))]), Applied)
  }

  function FailUnstarted(s: State, e: string, expectedRevision: nat, now: nat): Outcome {
    if e !in s.executions then Refuse(s, UnknownExecution)
    else
      var x := s.executions[e];
      if x.revision != expectedRevision then Refuse(s, StaleRevision)
      else if !(x.lifecycle.QueuedExecution? || x.lifecycle.PendingExecution?) then Refuse(s, IdentityConflict)
      else
        var failed := x.(lifecycle := FailedExecution(None), revision := x.revision + 1,
            updatedAt := Max(now, x.updatedAt),
                         obligations := All(x.obligations, FailedResponse));
        Outcome(s.(executions := s.executions[e := failed], claims := Reclaimed(s.claims, x.claims, C.FailedKind)),
            Applied)
  }

  function Register(s: State, owner: string, committed: bool): Outcome {
    if owner in s.owners then Outcome(s, AlreadyApplied)
    else Outcome(s.(owners := s.owners[owner := Owner(committed, 1, None, 0)]), Applied)
  }

  function Commit(s: State, owner: string): Outcome {
    if owner !in s.owners then Refuse(s, UnknownOwner)
    else if s.owners[owner].committed then Outcome(s, AlreadyApplied)
    else Outcome(s.(owners := s.owners[owner := s.owners[owner].(committed := true)]), Applied)
  }

  // A generation advances only when no live attempt still runs under it.
  function AdvanceGeneration(s: State, owner: string, expected: nat): Outcome {
    if owner !in s.owners then Refuse(s, UnknownOwner)
    else
      var p := s.owners[owner];
      if !p.committed then Refuse(s, IdentityConflict)
      else if p.generation != expected then Refuse(s, StaleRevision)
      else if exists k :: k in s.attempts && s.attempts[k].owner == owner && s.attempts[k].generation == p.generation
                          && s.attempts[k].state.LiveAttempt? then Refuse(s, IntegrityViolation)
      else Outcome(s.(owners := s.owners[owner := p.(generation := p.generation + 1)]), Applied)
  }

  // ---- Claims outside an execution ------------------------------------------------------------------------------

  function AcceptClaim(s: State, id: string, row: C.Row): Outcome {
    if row.claim != C.InitialState(C.ModeOf(row.claim)) || row.revision != 1 then Refuse(s, IdentityConflict)
    else if id in s.claims then
      if C.SameAcceptance(s.claims[id], row) then Outcome(s, AlreadyApplied) else Refuse(s, IdentityConflict)
    else if exists k :: k in s.claims && s.claims[k].recipient == row.recipient && s.claims[k].seqNo == row.seqNo
    then Refuse(s, IdentityConflict)
    else Outcome(s.(claims := s.claims[id := row]), Applied)
  }

  function TransitionClaim(s: State, id: string, kind: C.Kind, expectedRevision: nat): Outcome {
    if id !in s.claims then Refuse(s, UnknownClaim)
    else if s.claims[id].revision != expectedRevision then Refuse(s, StaleRevision)
    else
      var after := C.Transitioned(s.claims[id], kind);
      if after.None? then Refuse(s, IdentityConflict)
      else Outcome(s.(claims := s.claims[id := after.value]), Applied)
  }

  // ---- Runs ------------------------------------------------------------------------------------------------------

  datatype Command =
    | DoRegister(owner: string, committed: bool)
    | DoCommit(owner: string)
    | DoAdvanceGeneration(owner: string, expected: nat)
    | DoAccept(id: string, row: C.Row)
    | DoTransition(id: string, kind: C.Kind, expected: nat)
    | DoCreate(creation: Creation)
    | DoMarkPending(execution: string, expected: nat)
    | DoFailUnstarted(execution: string, expected: nat)
    | DoStart(request: AttemptStart)
    | DoAdvance(fence: Fence, phase: A.Phase, backendDone: bool, processDead: bool, progress: bool, expected: nat)
    | DoFailUnknown(fence: Fence, expected: nat)
    | DoSettle(fence: Fence, outcome: A.Outcome, proof: RetryProof, expected: nat)
    | DoTerminalize(call: MonitorCall)
    | DoFreeze(fence: Fence, target: string)
    | DoAcknowledge(fence: Fence, target: string)
    | DoObserve(fence: Fence, facts: set<Fact>)

  ghost function Perform(s: State, c: Command, now: nat): Outcome {
    match c
    case DoRegister(owner, committed) => Register(s, owner, committed)
    case DoCommit(owner) => Commit(s, owner)
    case DoAdvanceGeneration(owner, expected) => AdvanceGeneration(s, owner, expected)
    case DoAccept(id, row) => AcceptClaim(s, id, row)
    case DoTransition(id, kind, expected) => TransitionClaim(s, id, kind, expected)
    case DoCreate(creation) => Create(s, creation, now)
    case DoMarkPending(e, expected) => MarkPending(s, e, expected, now)
    case DoFailUnstarted(e, expected) => FailUnstarted(s, e, expected, now)
    case DoStart(r) => Start(s, r, now)
    case DoAdvance(f, phase, done, dead, progress, expected) => Advance(s, f, phase, done, dead, progress, expected)
    case DoFailUnknown(f, expected) => FailUnknown(s, f, expected, now)
    case DoSettle(f, outcome, proof, expected) => SettleNonpublication(s, f, outcome, proof, expected, now)
    case DoTerminalize(call) => Terminalize(s, call, now)
    case DoFreeze(f, target) => Freeze(s, f, target)
    case DoAcknowledge(f, target) => Acknowledge(s, f, target, now)
    case DoObserve(f, facts) => ObserveFacts(s, f, facts)
  }

  // Commands arrive in any order, from anyone, each with its clock reading.
  ghost function Run(s: State, commands: seq<(Command, nat)>): State {
    if commands == [] then s
    else
      var last := commands[|commands| - 1];
      Perform(Run(s, commands[..|commands| - 1]), last.0, last.1).state
  }
}
