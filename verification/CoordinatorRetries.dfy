/** How long the proof that a failure may be retried lasts. Starting the retry leaves it standing
    (`_resume_retry` of src/agent_comms/attempt_store.py is documented as revoking it), so a later failure is
    retried on the first failure's proof unless something observed since revoked it.
 */
module CoordinatorRetries {
  import opened Options
  import opened Coordinators
  import opened CoordinatorInvariant
  import A = Attempts
  import C = Claims

  // A start keeps the proof as it is, and a retry starts only on a standing one.
  lemma StartKeepsReplay(s: State, r: AttemptStart, now: nat)
    requires Start(s, r, now).answer.Started?
    ensures r.execution in s.executions && r.execution in Start(s, r, now).state.executions
    ensures Start(s, r, now).state.executions[r.execution].replay == s.executions[r.execution].replay
    ensures s.executions[r.execution].lifecycle.DeferredExecution?
            ==> AllowsRetry(Start(s, r, now).state.executions[r.execution].replay)
  {}

  // The commands that take the proof of `e` back, answered as they were: an observed effect, a recovery
  // that saw output or an unknown stop, an unknown outcome, and a failure that must not repeat.
  ghost predicate Revokes(s: State, c: Command, now: nat, e: string) {
    match c
    case DoObserve(f, facts) => f.execution == e && facts != {} && Fenced(s, f)
    case DoTerminalize(m) => m.execution == e && RecoveredFacts(m.stop) != {} && MonitorRefusal(s, m).None?
    case DoFailUnknown(f, expected) => f.execution == e && FailUnknown(s, f, expected, now).answer.Applied?
    case DoSettle(f, outcome, proof, expected) =>
      && f.execution == e && (outcome.UnknownOutcome? || proof.Nonretryable?)
      && SettleNonpublication(s, f, outcome, proof, expected, now).answer.Applied?
    case _ => false
  }

  // The proof stands after a step exactly when it stood and the step did not revoke it.
  ghost predicate Lasts(s: State, t: State, e: string, revoked: bool) {
    && e in s.executions && e in t.executions && t.executions[e].replay.Assessed?
    && (AllowsRetry(t.executions[e].replay) <==> AllowsRetry(s.executions[e].replay) && !revoked)
  }

  lemma SettleLasts(s: State, f: string, outcome: A.Outcome, now: nat, e: string)
    requires f in s.executions && s.executions[f].owner in s.owners && CurrentKey(s, f) in s.attempts
    requires e in s.executions && s.executions[e].replay.Assessed?
    ensures Lasts(s, Settle(s, f, outcome, now).state, e, f == e && outcome.UnknownOutcome?
        && Settle(s, f, outcome, now).answer.Applied?)
  {
    hide SettleRefusal, Disposition;
  }

  lemma FailUnknownLasts(s: State, f: Fence, expected: nat, now: nat, e: string)
    requires Inv(s) && e in s.executions && s.executions[e].replay.Assessed?
    ensures Lasts(s, FailUnknown(s, f, expected, now).state, e, Revokes(s, DoFailUnknown(f, expected), now, e))
  {
    hide Inv, SettleRefusal, Disposition;
    if Fenced(s, f) {
      FencedIsLive(s, f);
    }
  }

  lemma SettleNonpublicationLasts(s: State, f: Fence, outcome: A.Outcome, proof: RetryProof, expected: nat, now: nat,
                                  e: string)
    requires Inv(s) && e in s.executions && s.executions[e].replay.Assessed?
    ensures var c := DoSettle(f, outcome, proof, expected);
            Lasts(s, Perform(s, c, now).state, e, Revokes(s, c, now, e))
  {
    hide Inv, SettleRefusal, Disposition;
    if Fenced(s, f) {
      FencedIsLive(s, f);
      var prepared := WithReplay(s, f.execution, Prepared(s.executions[f.execution].replay, proof));
      SettleLasts(prepared, f.execution, outcome, now, e);
    }
  }

  lemma TerminalizeLasts(s: State, m: MonitorCall, now: nat, e: string)
    requires Inv(s) && e in s.executions && s.executions[e].replay.Assessed?
    ensures Lasts(s, Terminalize(s, m, now).state, e, Revokes(s, DoTerminalize(m), now, e))
  {
    hide Inv, SettleRefusal, Disposition;
    if MonitorRefusal(s, m).None? {
      RecordedKeeps(s, m);
      CurrentIsActive(s, m.execution);
      var recorded := Recorded(s, m);
      if (A.BackendDone(s.attempts[CurrentKey(s, m.execution)].state) || m.backendDone)
          && s.executions[m.execution].intents == {} {
        RecoverySettles(s, m);
      }
      SettleLasts(recorded, m.execution, RecoveredOutcome(m.stop), now, e);
    }
  }

  lemma StartLasts(s: State, r: AttemptStart, now: nat, e: string)
    requires e in s.executions && s.executions[e].replay.Assessed?
    ensures Lasts(s, Start(s, r, now).state, e, false)
  {
    hide StartRefusal;
  }

  lemma CreateLasts(s: State, c: Creation, now: nat, e: string)
    requires e in s.executions && s.executions[e].replay.Assessed?
    ensures Lasts(s, Create(s, c, now).state, e, false)
  {
    hide CreationRefusal;
  }

  lemma AdvanceLasts(s: State, f: Fence, phase: A.Phase, done: bool, dead: bool, progress: bool, expected: nat,
                     e: string)
    requires e in s.executions && s.executions[e].replay.Assessed?
    ensures Lasts(s, Advance(s, f, phase, done, dead, progress, expected).state, e, false)
  {
    hide A.Observe;
  }

  lemma PublicationLasts(s: State, f: Fence, target: string, now: nat, e: string)
    requires Inv(s) && e in s.executions && s.executions[e].replay.Assessed?
    ensures Lasts(s, Freeze(s, f, target).state, e, false) && Lasts(s, Acknowledge(s, f, target, now).state, e, false)
  {
    hide Inv;
    if Fenced(s, f) {
      FencedIsLive(s, f);
    }
  }

  lemma ObserveLasts(s: State, f: Fence, facts: set<Fact>, now: nat, e: string)
    requires e in s.executions && s.executions[e].replay.Assessed?
    ensures Lasts(s, ObserveFacts(s, f, facts).state, e, Revokes(s, DoObserve(f, facts), now, e))
  {}

  lemma PerformLasts(s: State, c: Command, now: nat, e: string)
    requires Inv(s) && e in s.executions && s.executions[e].replay.Assessed?
    ensures Lasts(s, Perform(s, c, now).state, e, Revokes(s, c, now, e))
  {
    hide Inv, Start, Create, Acknowledge, Freeze, FailUnknown, SettleNonpublication, Terminalize, Advance, ObserveFacts;
    match c
    case DoStart(r) => StartLasts(s, r, now, e);
    case DoCreate(creation) => CreateLasts(s, creation, now, e);
    case DoAdvance(f, phase, done, dead, progress, expected) =>
      AdvanceLasts(s, f, phase, done, dead, progress, expected, e);
    case DoFreeze(f, target) => PublicationLasts(s, f, target, now, e);
    case DoAcknowledge(f, target) => PublicationLasts(s, f, target, now, e);
    case DoObserve(f, facts) => ObserveLasts(s, f, facts, now, e);
    case DoFailUnknown(f, expected) => FailUnknownLasts(s, f, expected, now, e);
    case DoSettle(f, outcome, proof, expected) => SettleNonpublicationLasts(s, f, outcome, proof, expected, now, e);
    case DoTerminalize(m) => TerminalizeLasts(s, m, now, e);
    case _ =>
  }

  ghost predicate NeverRevoked(s: State, commands: seq<(Command, nat)>, e: string) {
    forall i: nat :: i < |commands| ==> !Revokes(Run(s, commands[..i]), commands[i].0, commands[i].1, e)
  }

  // Over a run the proof stands exactly until some command revokes it.
  lemma {:induction false} ProofLasts(s: State, commands: seq<(Command, nat)>, e: string)
    requires Inv(s) && e in s.executions && AllowsRetry(s.executions[e].replay)
    ensures Inv(Run(s, commands)) && e in Run(s, commands).executions && Run(s, commands).executions[e].replay.Assessed?
    ensures AllowsRetry(Run(s, commands).executions[e].replay) <==> NeverRevoked(s, commands, e)
  {
    hide Inv, Perform, Revokes;
    EveryRunKeeps(s, commands);
    if commands != [] {
      var n := |commands| - 1;
      var earlier := commands[..n];
      ProofLasts(s, earlier, e);
      PerformLasts(Run(s, earlier), commands[n].0, commands[n].1, e);
      assert forall i: nat :: i < n ==> earlier[..i] == commands[..i] && earlier[i] == commands[i];
      assert NeverRevoked(s, commands, e) <==> NeverRevoked(s, earlier, e)
                                               && !Revokes(Run(s, earlier), commands[n].0, commands[n].1, e);
    }
  }

  // Owed responses are all still pending while nothing is frozen.
  lemma OwedAreRetryable(s: State, e: string)
    requires Inv(s) && e in s.executions && s.executions[e].lifecycle.ActiveExecution? && s.executions[e].intents == {}
    ensures s.executions[e].origin.WireOrigin? ==> s.executions[e].obligations.Keys != {}
    ensures forall t :: t in s.executions[e].obligations ==> Retryable(s.executions[e].obligations[t])
  {
    hide Inv;
    RespondsAt(s, e);
  }

  // After a retry has started, a known failure, however much later, defers the execution again exactly
  // when no command since revoked the old proof, the failure itself may repeat and the budget remains. No
  // new proof is needed.
  lemma RetryDefersAgainExactly(s: State, r: AttemptStart, now: nat, commands: seq<(Command, nat)>,
                                f: Fence, proof: RetryProof, expected: nat, later: nat)
    requires Inv(s) && Start(s, r, now).answer.Started? && f.execution == r.execution
    requires r.execution in s.executions && s.executions[r.execution].lifecycle.DeferredExecution?
    requires SettleNonpublication(Run(Start(s, r, now).state, commands), f, A.AttemptFailed, proof, expected,
        later).answer.Applied?
    ensures var started := Start(s, r, now).state;
            var failed := SettleNonpublication(Run(started, commands), f, A.AttemptFailed, proof, expected,
                later).state;
            && r.execution in failed.executions
            && (failed.executions[r.execution].lifecycle.DeferredExecution?
                <==> && NeverRevoked(started, commands, r.execution)
                     && !proof.Nonretryable?
                     && f.ordinal < failed.executions[r.execution].maxAttempts)
  {
    hide Inv, NeverRevoked, StartRefusal, Run;
    var e, started := r.execution, Start(s, r, now).state;
    StartKeepsReplay(s, r, now);
    StartKeeps(s, r, now);
    ProofLasts(started, commands, e);
    FailureDefersExactly(Run(started, commands), f, proof, expected, later);
  }

  // A known failure defers exactly on a standing proof, within the budget.
  lemma FailureDefersExactly(t: State, f: Fence, proof: RetryProof, expected: nat, now: nat)
    requires Inv(t) && f.execution in t.executions && t.executions[f.execution].replay.Assessed?
    requires SettleNonpublication(t, f, A.AttemptFailed, proof, expected, now).answer.Applied?
    ensures var failed := SettleNonpublication(t, f, A.AttemptFailed, proof, expected, now).state;
            && f.execution in failed.executions
            && (failed.executions[f.execution].lifecycle.DeferredExecution?
                <==> && AllowsRetry(t.executions[f.execution].replay) && !proof.Nonretryable?
                     && f.ordinal < failed.executions[f.execution].maxAttempts)
  {
    hide Inv;
    FencedIsLive(t, f);
    OwedIfSettled(t, f, proof, expected, now);
    ActiveCountsFromOne(t, f.execution);
  }

  // A recovery that records a known failure does the same: it defers on the old proof exactly when nothing
  // revoked it, the run had neither finished nor stopped unknown, and the budget remains.
  lemma RecoveryDefersAgainExactly(s: State, r: AttemptStart, now: nat, commands: seq<(Command, nat)>, m: MonitorCall,
                                   later: nat)
    requires Inv(s) && Start(s, r, now).answer.Started? && m.execution == r.execution
    requires r.execution in s.executions && s.executions[r.execution].lifecycle.DeferredExecution?
    requires Terminalize(Run(Start(s, r, now).state, commands), m, later).answer.Applied?
    ensures var started := Start(s, r, now).state;
            var recovered := Terminalize(Run(started, commands), m, later).state;
            && r.execution in recovered.executions
            && (recovered.executions[r.execution].lifecycle.DeferredExecution?
                <==> && NeverRevoked(started, commands, r.execution)
                     && m.stop.FailedStop?
                     && m.ordinal < recovered.executions[r.execution].maxAttempts)
  {
    hide Inv, NeverRevoked, StartRefusal, Run;
    var e, started := r.execution, Start(s, r, now).state;
    StartKeepsReplay(s, r, now);
    StartKeeps(s, r, now);
    ProofLasts(started, commands, e);
    RecoveryDefersExactly(Run(started, commands), m, later);
  }

  lemma RecoveryDefersExactly(t: State, m: MonitorCall, now: nat)
    requires Inv(t) && m.execution in t.executions && t.executions[m.execution].replay.Assessed?
    requires Terminalize(t, m, now).answer.Applied?
    ensures var recovered := Terminalize(t, m, now).state;
            && m.execution in recovered.executions
            && (recovered.executions[m.execution].lifecycle.DeferredExecution?
                <==> && AllowsRetry(t.executions[m.execution].replay) && m.stop.FailedStop?
                     && m.ordinal < recovered.executions[m.execution].maxAttempts)
  {
    hide Inv;
    RecordedKeeps(t, m);
    CurrentIsActive(t, m.execution);
    OwedAreRetryable(t, m.execution);
    ActiveCountsFromOne(t, m.execution);
  }

  lemma OwedIfSettled(t: State, f: Fence, proof: RetryProof, expected: nat, now: nat)
    requires Inv(t) && SettleNonpublication(t, f, A.AttemptFailed, proof, expected, now).answer.Applied?
    ensures f.execution in t.executions
    ensures t.executions[f.execution].origin.WireOrigin? ==> t.executions[f.execution].obligations.Keys != {}
    ensures forall x :: x in t.executions[f.execution].obligations
                        ==> Retryable(t.executions[f.execution].obligations[x])
  {
    hide Inv;
    FencedIsLive(t, f);
    OwedAreRetryable(t, f.execution);
  }

  lemma ActiveCountsFromOne(t: State, e: string)
    requires Inv(t) && e in t.executions && t.executions[e].lifecycle.ActiveExecution?
    ensures Last(t.executions[e].lifecycle) > 0
  {
    hide TokensDistinct, Owned, Pointed, Phased, Claimed, Answered, Audited;
  }

  // ---- A run that retries twice on one proof -----------------------------------------------------------

  function Claimless(lifecycle: Lifecycle, revision: nat, replay: Replay): Execution {
    Execution(ClaimlessOrigin, "o", 3, 0, [], lifecycle, revision, 0, replay, map[], {})
  }

  function Row(n: nat, state: A.Attempt, revision: nat): AttemptRow {
    AttemptRow("o", n, if n == 1 then "first" else "second", 0, state, revision)
  }

  function Table(generation: nat, pointer: Option<Key>, pointerRevision: nat, x: Execution,
                 attempts: map<Key, AttemptRow>): State {
    State(map["o" := Owner(true, generation, pointer, pointerRevision)], map["e" := x], attempts, map[], [])
  }

  const PROVED := Assessed({}, true, false)
  const OPEN := A.Started(INITIAL_LEASE_DURATION_MS)
  const OVER := A.LiveAttempt(A.PromptStarting, INITIAL_LEASE_DURATION_MS, true, true)
  const FAILED := A.TerminalAttempt(A.AttemptFailed)

  function StartOf(n: nat, revision: nat, pointerRevision: nat): AttemptStart {
    AttemptStart("e", n, "o", n, if n == 1 then "first" else "second", revision, pointerRevision)
  }

  // Observe both final facts of the first phase.
  function Finish(n: nat, pointerRevision: nat): Command {
    DoAdvance(FenceFor(StartOf(n, 0, 0), 1), A.Live(A.PromptStarting), true, true, false, pointerRevision)
  }

  function Fail(n: nat, proof: RetryProof, pointerRevision: nat): Command {
    DoSettle(FenceFor(StartOf(n, 0, 0), 2), A.AttemptFailed, proof, pointerRevision)
  }

  // Created with a budget of three.
  const QUEUED := Table(1, None, 0, Claimless(QueuedExecution, 1, NoAssessment), map[])
  const PENDING := Table(1, None, 0, Claimless(PendingExecution, 2, NoAssessment), map[])
  const DEFERRED := Table(1, None, 2, Claimless(DeferredExecution(1), 4, PROVED), map[("e", 1) := Row(1, FAILED, 3)])
  const RENEWED := Table(2, None, 2, Claimless(DeferredExecution(1), 4, PROVED), map[("e", 1) := Row(1, FAILED, 3)])

  lemma RunAdds(s: State, commands: seq<(Command, nat)>, c: Command)
    ensures Run(s, commands + [(c, 0)]) == Perform(Run(s, commands), c, 0).state
  {
    hide Perform;
    assert (commands + [(c, 0)])[..|commands|] == commands;
  }

  lemma Registers()
    ensures var s := Perform(EMPTY, DoRegister("o", true), 0).state;
            Perform(s, DoCreate(Creation("e", ClaimlessOrigin, "o", 3, [])), 0).state == QUEUED
  {
    var s := Register(EMPTY, "o", true).state;
    var c := Creation("e", ClaimlessOrigin, "o", 3, []);
    assert Members(c.sources) == [];
    assert Routes([]) == map[];
    assert EngagedWith(s.claims, c) == map[];
  }

  lemma Pends()
    ensures Perform(QUEUED, DoMarkPending("e", 1), 0).state == PENDING
  {}

  // One attempt from its start to its failure; the table holds no earlier row of the same number.
  lemma StartsAndFails(s: State, n: nat, revision: nat, pointerRevision: nat, before: Replay, proof: RetryProof,
                       lifecycle: Lifecycle, rows: map<Key, AttemptRow>)
    requires 1 <= n <= 2 && s == Table(n, None, pointerRevision, Claimless(lifecycle, revision, before), rows)
    requires (n == 1 && lifecycle == PendingExecution && rows == map[])
             || (n == 2 && lifecycle == DeferredExecution(1) && rows == map[("e", 1) := Row(1, FAILED, 3)]
                  && before == PROVED)
    requires Prepared(before, proof) == PROVED
    ensures var t := Perform(s, DoStart(StartOf(n, revision, pointerRevision)), 0).state;
            var u := Perform(t, Finish(n, pointerRevision + 1), 0).state;
            Perform(u, Fail(n, proof, pointerRevision + 1), 0).state
            == Table(n, None, pointerRevision + 2, Claimless(DeferredExecution(n), revision + 2, PROVED),
                 rows[("e", n) := Row(n, FAILED, 3)])
  {
    var active := Claimless(ActiveExecution(n), revision + 1, before);
    var t := Table(n, Some(("e", n)), pointerRevision + 1, active, rows[("e", n) := Row(n, OPEN, 1)]);
    var u := Table(n, Some(("e", n)), pointerRevision + 1, active, rows[("e", n) := Row(n, OVER, 2)]);
    StartsOne(s, n, revision, pointerRevision, before, lifecycle, rows, t);
    FinishesOne(t, n, pointerRevision + 1, active, rows, u);
    FailsOne(u, n, revision + 1, pointerRevision + 1, before, proof, rows);
  }

  lemma StartsOne(s: State, n: nat, revision: nat, pointerRevision: nat, before: Replay, lifecycle: Lifecycle,
                  rows: map<Key, AttemptRow>, t: State)
    requires 1 <= n <= 2 && s == Table(n, None, pointerRevision, Claimless(lifecycle, revision, before), rows)
    requires (n == 1 && lifecycle == PendingExecution && rows == map[])
             || (n == 2 && lifecycle == DeferredExecution(1) && rows == map[("e", 1) := Row(1, FAILED, 3)]
                  && before == PROVED)
    requires t == Table(n, Some(("e", n)), pointerRevision + 1, Claimless(ActiveExecution(n), revision + 1, before),
        rows[("e", n) := Row(n, OPEN, 1)])
    ensures Perform(s, DoStart(StartOf(n, revision, pointerRevision)), 0).state == t
  {
    var r := StartOf(n, revision, pointerRevision);
    assert Resumed(map[]) == map[];
    assert Reclaimed(map[], [], C.EngagedKind) == map[];
    assert !TokenIssued(s, r.digest);
    assert StartRefusal(s, r).None?;
    assert Activated(s, r, 0) == t;
  }

  lemma FinishesOne(t: State, n: nat, pointerRevision: nat, x: Execution, rows: map<Key, AttemptRow>, u: State)
    requires 1 <= n <= 2 && x.lifecycle == ActiveExecution(n) && x.owner == "o"
    requires t == Table(n, Some(("e", n)), pointerRevision, x, rows[("e", n) := Row(n, OPEN, 1)])
    requires u == Table(n, Some(("e", n)), pointerRevision, x, rows[("e", n) := Row(n, OVER, 2)])
    ensures Perform(t, Finish(n, pointerRevision), 0).state == u
  {
    assert t.attempts[("e", n) := Row(n, OVER, 2)] == u.attempts;
  }

  lemma EndsOne(s: State, n: nat, revision: nat, pointerRevision: nat, rows: map<Key, AttemptRow>)
    requires s == Table(n, Some(("e", n)), pointerRevision, Claimless(ActiveExecution(n), revision, PROVED),
                        rows[("e", n) := Row(n, OVER, 2)])
    ensures Ended(s, "e", A.AttemptFailed, Claimless(DeferredExecution(n), revision + 1, PROVED))
            == Table(n, None, pointerRevision + 1, Claimless(DeferredExecution(n), revision + 1, PROVED),
                     rows[("e", n) := Row(n, FAILED, 3)])
  {
    assert Reclaimed(map[], [], C.DeferredKind) == map[];
    assert s.attempts[("e", n) := Row(n, FAILED, 3)] == rows[("e", n) := Row(n, FAILED, 3)];
  }

  lemma DefersOne(n: nat, revision: nat)
    requires 1 <= n <= 2
    ensures SettledExecution(Claimless(ActiveExecution(n), revision, PROVED), A.AttemptFailed, 0)
            == Claimless(DeferredExecution(n), revision + 1, PROVED)
  {
    assert All(map[], DeferredResponse) == map[];
  }

  lemma FailsOne(u: State, n: nat, revision: nat, pointerRevision: nat, before: Replay, proof: RetryProof,
                 rows: map<Key, AttemptRow>)
    requires 1 <= n <= 2 && Prepared(before, proof) == PROVED
    requires u == Table(n, Some(("e", n)), pointerRevision, Claimless(ActiveExecution(n), revision, before),
                        rows[("e", n) := Row(n, OVER, 2)])
    ensures Perform(u, Fail(n, proof, pointerRevision), 0).state
            == Table(n, None, pointerRevision + 1, Claimless(DeferredExecution(n), revision + 1, PROVED),
                     rows[("e", n) := Row(n, FAILED, 3)])
  {
    hide Ended, SettledExecution, Prepared;
    var prepared := WithReplay(u, "e", PROVED);
    assert prepared == Table(n, Some(("e", n)), pointerRevision, Claimless(ActiveExecution(n), revision, PROVED),
                             rows[("e", n) := Row(n, OVER, 2)]);
    DefersOne(n, revision);
    EndsOne(prepared, n, revision, pointerRevision, rows);
  }

  // The first failure brings a proof, the second none.
  const FIRST := [(DoRegister("o", true), 0), (DoCreate(Creation("e", ClaimlessOrigin, "o", 3, [])), 0),
      (DoMarkPending("e", 1), 0)]
  const SECOND := [(DoStart(StartOf(1, 2, 0)), 0), (Finish(1, 1), 0), (Fail(1, Transient, 1), 0),
      (DoAdvanceGeneration("o", 1), 0)]
  const THIRD := [(DoStart(StartOf(2, 4, 2)), 0), (Finish(2, 3), 0), (Fail(2, NoFailure, 3), 0)]

  lemma {:induction false} RunJoins(s: State, a: seq<(Command, nat)>, b: seq<(Command, nat)>)
    ensures Run(s, a + b) == Run(Run(s, a), b)
  {
    hide Perform;
    if b == [] {
      assert a + b == a;
    } else {
      RunJoins(s, a, b[..|b| - 1]);
      assert (a + b)[..|a + b| - 1] == a + b[..|b| - 1];
    }
  }

  lemma RunOfThree(s: State, a: (Command, nat), b: (Command, nat), c: (Command, nat))
    ensures Run(s, [a, b, c]) == Perform(Perform(Perform(s, a.0, a.1).state, b.0, b.1).state, c.0, c.1).state
  {
    hide Perform;
    assert [a][..0] == [] && [a, b][..1] == [a] && [a, b, c][..2] == [a, b];
    assert Run(s, [a]) == Perform(Run(s, []), a.0, a.1).state;
    assert Run(s, [a, b]) == Perform(Run(s, [a]), b.0, b.1).state;
  }

  lemma Renews()
    ensures Perform(DEFERRED, DoAdvanceGeneration("o", 1), 0).state == RENEWED
  {}

  // So the code does not keep the documented promise: this run is deferred a second time, for a third
  // attempt, on the proof of its first failure.
  lemma OneProofRetriesTwice()
    ensures Run(EMPTY, FIRST + SECOND) == RENEWED
    ensures Run(RENEWED, THIRD)
            == Table(2, None, 4, Claimless(DeferredExecution(2), 6, PROVED),
                     map[("e", 1) := Row(1, FAILED, 3), ("e", 2) := Row(2, FAILED, 3)])
  {
    hide Perform;
    RunOfThree(EMPTY, FIRST[0], FIRST[1], FIRST[2]);
    Registers();
    Pends();
    assert Run(EMPTY, FIRST) == PENDING;
    RunOfThree(PENDING, SECOND[0], SECOND[1], SECOND[2]);
    StartsAndFails(PENDING, 1, 2, 0, NoAssessment, Transient, PendingExecution, map[]);
    var attempt := SECOND[..3];
    assert attempt == [SECOND[0], SECOND[1], SECOND[2]];
    assert Run(PENDING, attempt) == DEFERRED;
    assert SECOND == attempt + [(DoAdvanceGeneration("o", 1), 0)];
    RunAdds(PENDING, attempt, DoAdvanceGeneration("o", 1));
    Renews();
    RunJoins(EMPTY, FIRST, SECOND);
    RunOfThree(RENEWED, THIRD[0], THIRD[1], THIRD[2]);
    StartsAndFails(RENEWED, 2, 4, 2, PROVED, NoFailure, DeferredExecution(1), RENEWED.attempts);
  }
}
