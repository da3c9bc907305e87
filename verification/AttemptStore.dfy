/** The stores as they run: tables updated row by row inside one write, proved against the transaction
    functions of `Coordinators` (src/agent_comms/attempt_store.py, attempt_start.py,
    coordination/snapshot.py and attempt_recovery.py). */
module AttemptStores {
  import opened Options
  import Spec = Coordinators
  import opened Coordinators
  import opened CoordinatorInvariant
  import A = Attempts
  import C = Claims

  // Rebuilding one more member.
  lemma ReclaimOne(claims: C.Table, members: seq<string>, i: nat, kind: C.Kind)
    requires i < |members| && Distinct(members) && members[i] in claims
    ensures Reclaimed(claims, members[..i + 1], kind)
            == Reclaimed(claims, members[..i], kind)[members[i] := ReclaimedRow(claims[members[i]], kind)]
    ensures Reclaimed(claims, members[..i], kind)[members[i]] == claims[members[i]]
  {
    assert members[..i + 1] == members[..i] + [members[i]];
    assert members[i] !in members[..i];
  }

  lemma MembersAreClaims(s: State, e: string)
    requires Inv(s) && e in s.executions
    ensures Distinct(s.executions[e].claims)
    ensures forall id :: id in s.executions[e].claims ==>
                           id in s.claims && C.Bound(s.claims[id].claim) && C.WellFormed(s.claims[id].claim)
  {
    hide Numbered, TokensDistinct, Owned, Pointed, Phased, Answered, Audited;
    forall id | id in s.executions[e].claims ensures id in s.claims && C.Bound(s.claims[id].claim) {
      assert ClaimOf(s.executions, s.claims, e, id);
    }
  }

  class AttemptStore {
    var owners: map<string, Owner>
    var executions: map<string, Execution>
    var attempts: map<Key, AttemptRow>
    var claims: C.Table
    var audits: seq<Audit>

    constructor (s: State)
      ensures Value() == s
    {
      owners, executions, attempts, claims, audits := s.owners, s.executions, s.attempts, s.claims, s.audits;
    }

    ghost function Value(): State
      reads this
    {
      State(owners, executions, attempts, claims, audits)
    }

    // Rebuild each claim of an execution in another state, one row at a time.
    method Reclaim(members: seq<string>, kind: C.Kind)
      requires Distinct(members) && forall id :: id in members ==> id in claims
      modifies this`claims
      ensures claims == Reclaimed(old(claims), members, kind)
    {
      ghost var start := claims;
      for i := 0 to |members|
        invariant claims == Reclaimed(start, members[..i], kind)
      {
        var id := members[i];
        ReclaimOne(start, members, i, kind);
        var row := claims[id];
        var built := C.Build(kind, C.ModeOf(row.claim), C.ExecutionOf(row.claim), C.TargetOf(row.claim));
        if built.Some? {
          claims := claims[id := row.(claim := built.value, revision := row.revision + 1)];
        }
      }
      assert members[..|members|] == members;
    }

    // Move each response of an execution, one route at a time.
    method Respond(obligations: map<string, Response>, deferredOnly: bool, response: Response)
      returns (after: map<string, Response>)
      ensures deferredOnly && response.PendingResponse? ==> after == Resumed(obligations)
      ensures !deferredOnly ==> after == All(obligations, response)
    {
      after := obligations;
      var left := obligations.Keys;
      while left != {}
        invariant left <= obligations.Keys == after.Keys
        invariant forall t :: t in left ==> after[t] == obligations[t]
        invariant forall t :: t in obligations && t !in left ==>
                                after[t] == if deferredOnly && !obligations[t].DeferredResponse? then obligations[t]
                                    else response
        decreases left
      {
        var t :| t in left;
        left := left - {t};
        if !deferredOnly || after[t].DeferredResponse? {
          after := after[t := response];
        }
      }
    }

    method Start(r: AttemptStart, now: nat) returns (answer: Answer)
      requires Inv(Value())
      modifies this
      ensures Inv(Value())
      ensures Outcome(Value(), answer) == Spec.Start(old(Value()), r, now)
    {
      hide Inv;
      ghost var before := Value();
      StartKeeps(before, r, now);
      if r.execution !in executions {
        return Refused(UnknownExecution);
      }
      var x := executions[r.execution];
      if x.owner !in owners {
        return Refused(UnknownOwner);
      }
      if k :| k in attempts && k.0 == r.execution && attempts[k].digest == r.digest {
        IssuedToOne(before, r, k);
        var row := attempts[k];
        if k.1 == r.ordinal && row.owner == r.owner && row.generation == r.generation && row.createdAt >= x.createdAt {
          return Replayed(FenceFor(r, row.revision));
        }
        return Refused(IdentityConflict);
      }
      assert forall k :: !IssuedFor(before, r.execution, r.digest, k);
      if exists k :: k in attempts && attempts[k].digest == r.digest {
        return Refused(IdentityConflict);
      }
      assert !TokenIssued(before, r.digest);
      var refusal := Validate(r);
      if refusal.Some? {
        return Refused(refusal.value);
      }
      MembersAreClaims(before, r.execution);
      Activate(r, now);
      if x.lifecycle.DeferredExecution? {
        Reclaim(x.claims, C.EngagedKind);
      }
      assert Value() == Activated(before, r, now);
      answer := Started(FenceFor(r, 1));
    }

    // The checks of a start, in order.
    method Validate(r: AttemptStart) returns (refusal: Option<Refusal>)
      requires r.execution in executions && executions[r.execution].owner in owners
      ensures refusal == StartRefusal(Value(), r)
    {
      var x := executions[r.execution];
      var p := owners[x.owner];
      var ordinal := Last(x.lifecycle) + 1;
      var previous := (r.execution, Last(x.lifecycle));
      if !p.committed || (x.owner, p.generation) != (r.owner, r.generation) { return Some(StaleFence); }
      if (x.revision, p.pointerRevision) != (r.expectedExecutionRevision,
          r.expectedPointerRevision) { return Some(StaleRevision); }
      if p.pointer.Some? { return Some(StaleFence); }
      if !StartsAttempt(x.lifecycle) { return Some(IdentityConflict); }
      if x.intents != {} { return Some(PublicationUncertain); }
      if x.lifecycle.DeferredExecution? {
        if !RetryAuthorized(x) || previous !in attempts
            || attempts[previous].state != A.TerminalAttempt(A.AttemptFailed) {
          return Some(RecoveryBlocked);
        }
      }
      if ordinal != r.ordinal { return Some(IdentityConflict); }
      if ordinal > x.maxAttempts { return Some(RecoveryBlocked); }
      if previous in attempts && r.generation <= attempts[previous].generation { return Some(StaleFence); }
      refusal := None;
    }

    // Insert the attempt, then move its execution, responses and pointer.
    method Activate(r: AttemptStart, now: nat)
      requires r.execution in executions && executions[r.execution].owner in owners
      modifies this`owners, this`executions, this`attempts
      ensures owners == Activated(old(Value()), r, now).owners
      ensures executions == Activated(old(Value()), r, now).executions
      ensures attempts == Activated(old(Value()), r, now).attempts
    {
      var x := executions[r.execution];
      var p := owners[x.owner];
      var created := Max(now, x.updatedAt);
      var lease := created + INITIAL_LEASE_DURATION_MS;
      attempts := attempts[(r.execution, r.ordinal) := AttemptRow(x.owner, r.generation, r.digest, created,
          A.Started(lease), 1)];
      var resumed := Respond(x.obligations, true, PendingResponse);
      executions := executions[r.execution := x.(lifecycle := ActiveExecution(r.ordinal), revision := x.revision + 1,
                                                 updatedAt := created, obligations := resumed)];
      owners := owners[x.owner := p.(pointer := Some((r.execution, r.ordinal)),
          pointerRevision := p.pointerRevision + 1)];
    }

    method RequireFence(f: Fence) returns (refusal: Option<Refusal>)
      ensures refusal == FenceRefusal(Value(), f)
    {
      if f.execution !in executions {
        return Some(UnknownExecution);
      }
      var x := executions[f.execution];
      var k := (f.execution, Last(x.lifecycle));
      if x.owner !in owners || owners[x.owner].pointer.None? || owners[x.owner].pointer.value.0 != f.execution
          || k !in attempts {
        return Some(StaleFence);
      }
      var row := attempts[k];
      if row.owner !in owners || (f.ordinal, f.owner, f.generation, f.digest) != (k.1, row.owner, row.generation,
          row.digest)
         || owners[row.owner].generation != row.generation {
        return Some(StaleFence);
      }
      refusal := if row.revision != f.revision then Some(StaleRevision) else None;
    }

    method AdvanceAttempt(k: Key, state: A.Attempt)
      requires k in attempts
      modifies this`attempts
      ensures Value() == WithAttempt(old(Value()), k, state)
    {
      attempts := attempts[k := attempts[k].(state := state, revision := attempts[k].revision + 1)];
    }

    method Advance(f: Fence, phase: A.Phase, backendDone: bool, processDead: bool, progress: bool,
                   expectedPointerRevision: nat)
      returns (answer: Answer)
      requires Inv(Value())
      modifies this`attempts
      ensures Inv(Value())
      ensures Outcome(Value(), answer)
              == Spec.Advance(old(Value()), f, phase, backendDone, processDead, progress, expectedPointerRevision)
    {
      hide Inv;
      ghost var before := Value();
      AdvanceKeeps(before, f, phase, backendDone, processDead, progress, expectedPointerRevision);
      if phase.Ended? {
        return Refused(IdentityConflict);
      }
      var refusal := RequireFence(f);
      if refusal.Some? {
        return Refused(refusal.value);
      }
      if owners[executions[f.execution].owner].pointerRevision != expectedPointerRevision {
        return Refused(StaleRevision);
      }
      var k := (f.execution, Last(executions[f.execution].lifecycle));
      match A.Observe(attempts[k].state, phase, backendDone, processDead, progress) {
        case Observed(a) =>
          AdvanceAttempt(k, a);
          answer := Started(f.(revision := attempts[k].revision));
        case EdgeNotDeclared => answer := Refused(IdentityConflict);
        case FinalEvidence => answer := Refused(RecoveryBlocked);
        case LeaseHeld => answer := Refused(IntegrityViolation);
      }
    }

    // Settle the current attempt: its row, its execution, every response, every claim and the pointer.
    method Settle(e: string, outcome: A.Outcome, now: nat) returns (answer: Answer)
      requires Inv(Value()) && e in executions && executions[e].owner in owners
      modifies this`owners, this`executions, this`attempts, this`claims
      ensures Inv(Value())
      ensures Outcome(Value(), answer) == Spec.Settle(old(Value()), e, outcome, now)
    {
      hide Inv;
      ghost var before := Value();
      SettleKeeps(before, e, outcome, now);
      var refusal := SettleRefusal(State(owners, executions, attempts, claims, audits), e, outcome);
      if refusal.Some? {
        return Refused(refusal.value);
      }
      MembersAreClaims(before, e);
      var x := executions[e];
      var k := (e, Last(x.lifecycle));
      var (lifecycle, response) := Disposition(x, outcome);
      AdvanceAttempt(k, A.TerminalAttempt(outcome));
      var responses := Respond(x.obligations, false, response);
      executions := executions[e := x.(lifecycle := lifecycle, revision := x.revision + 1,
          updatedAt := Max(now, x.updatedAt),
                                       replay := Accumulated(x.replay, Contribution(outcome)),
                                           obligations := responses)];
      Reclaim(x.claims, ClaimKind(lifecycle));
      var p := owners[x.owner];
      owners := owners[x.owner := p.(pointer := None, pointerRevision := p.pointerRevision + 1)];
      assert Value() == Ended(before, e, outcome, SettledExecution(x, outcome, now));
      answer := Applied;
    }

    method FailUnknown(f: Fence, expectedPointerRevision: nat, now: nat) returns (answer: Answer)
      requires Inv(Value())
      modifies this`owners, this`executions, this`attempts, this`claims
      ensures Inv(Value())
      ensures Outcome(Value(), answer) == Spec.FailUnknown(old(Value()), f, expectedPointerRevision, now)
    {
      hide Inv;
      ghost var before := Value();
      var refusal := RequireFence(f);
      if refusal.Some? {
        return Refused(refusal.value);
      }
      var e := f.execution;
      if owners[executions[e].owner].pointerRevision != expectedPointerRevision {
        return Refused(StaleRevision);
      }
      if executions[e].intents != {} {
        return Refused(PublicationUncertain);
      }
      FencedIsLive(before, f);
      var k := (e, Last(executions[e].lifecycle));
      var a := attempts[k].state;
      if !A.Final(a) {
        A.FinalObservationIsAccepted(a);
        LiveChangeKeeps(before, k, a.(backendDone := true, processDead := true));
        AdvanceAttempt(k, A.Observe(a, A.PhaseOf(a), true, true, false).attempt);
      }
      answer := Settle(e, A.UnknownOutcome, now);
    }

    // A settlement that is refused takes back the retry proof it recorded.
    method SettleNonpublication(f: Fence, outcome: A.Outcome, proof: RetryProof, expectedPointerRevision: nat, now: nat)
      returns (answer: Answer)
      requires Inv(Value())
      modifies this`owners, this`executions, this`attempts, this`claims
      ensures Inv(Value())
      ensures Outcome(Value(), answer)
              == Spec.SettleNonpublication(old(Value()), f, outcome, proof, expectedPointerRevision, now)
    {
      hide Inv;
      ghost var before := Value();
      var refusal := RequireFence(f);
      if refusal.Some? {
        return Refused(refusal.value);
      }
      var e := f.execution;
      if owners[executions[e].owner].pointerRevision != expectedPointerRevision {
        return Refused(StaleRevision);
      }
      FencedIsLive(before, f);
      var x := executions[e];
      ReplayChangeKeeps(before, e, Prepared(x.replay, proof));
      executions := executions[e := x.(replay := Prepared(x.replay, proof))];
      assert Value() == WithReplay(before, e, Prepared(x.replay, proof));
      answer := Settle(e, outcome, now);
      if answer.Refused? {
        executions := executions[e := x];
        assert Value() == before;
      }
    }

    method TerminalizeDeadAttempt(m: MonitorCall, now: nat) returns (answer: Answer)
      requires Inv(Value())
      modifies this
      ensures Inv(Value())
      ensures Outcome(Value(), answer) == Spec.Terminalize(old(Value()), m, now)
    {
      hide Inv;
      ghost var before := Value();
      TerminalizeKeeps(before, m, now);
      var refusal := MonitorRefusal(State(owners, executions, attempts, claims, audits), m);
      if refusal.Some? {
        return Refused(refusal.value);
      }
      RecordedKeeps(before, m);
      var e := m.execution;
      var x := executions[e];
      var k := (e, Last(x.lifecycle));
      var attempt := attempts[k].state;
      executions := executions[e := x.(replay := Accumulated(x.replay, RecoveredFacts(m.stop)))];
      AdvanceAttempt(k, A.Record(attempt, m.backendDone));
      assert Value() == Recorded(before, m);
      var unresolved := x.intents != {};
      if (A.BackendDone(attempt) || m.backendDone) && !unresolved {
        RecoverySettles(before, m);
        answer := Settle(e, RecoveredOutcome(m.stop), now);
        audits := audits + [Audit((e, m.ordinal), executions[e].lifecycle.DeferredExecution?)];
        return;
      }
      answer := Refused(if unresolved && (A.BackendDone(attempt) || m.backendDone) then PublicationUncertain
          else RecoveryBlocked);
    }
  }

  lemma IssuedToOne(s: State, r: AttemptStart, k: Key)
    requires Inv(s) && IssuedFor(s, r.execution, r.digest, k)
    ensures forall j :: IssuedFor(s, r.execution, r.digest, j) ==> j == k
  {
    hide Numbered, Owned, Pointed, Phased, Claimed, Answered, Audited;
  }
}
