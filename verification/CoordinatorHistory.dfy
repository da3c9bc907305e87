/** What no later write takes back: attempts and executions keep their identity, a finished one stays
    finished, revisions only rise, and recorded facts, bindings and audits stay recorded. */
module CoordinatorHistory {
  import opened Options
  import opened Coordinators
  import opened CoordinatorInvariant
  import A = Attempts
  import C = Claims

  // ---- The parts -------------------------------------------------------------------------------

  // A live attempt only gains facts, and the first of them freezes its phase.
  predicate Grows(a: A.Attempt, b: A.Attempt) {
    && (A.BackendDone(a) ==> A.BackendDone(b))
    && (A.ProcessDead(a) ==> A.ProcessDead(b))
    && (a.LiveAttempt? && b.LiveAttempt? ==> a.lease == b.lease
                                             && (A.BackendDone(a) || A.ProcessDead(a) ==> b.phase == a.phase))
  }

  // An ended attempt is never rewritten.
  predicate RowGrows(a: AttemptRow, b: AttemptRow) {
    && (a.owner, a.generation, a.digest, a.createdAt) == (b.owner, b.generation, b.digest, b.createdAt)
    && a.revision <= b.revision && (a.revision == b.revision || a.state.TerminalAttempt? ==> a == b)
    && Grows(a.state, b.state)
  }

  ghost predicate AttemptsGrow(as_: map<Key, AttemptRow>, as': map<Key, AttemptRow>) {
    forall k :: k in as_ ==> k in as' && RowGrows(as_[k], as'[k])
  }

  predicate ExecutionGrows(x: Execution, y: Execution) {
    && (x.origin, x.owner, x.maxAttempts, x.createdAt, x.claims)
         == (y.origin, y.owner, y.maxAttempts, y.createdAt, y.claims)
    && x.obligations.Keys == y.obligations.Keys
    && x.revision <= y.revision && x.updatedAt <= y.updatedAt
    && Last(x.lifecycle) <= Last(y.lifecycle)
    && (TerminalExecution(x.lifecycle) ==> y.lifecycle == x.lifecycle)
  }

  ghost predicate ExecutionsGrow(xs: map<string, Execution>, xs': map<string, Execution>) {
    forall e :: e in xs ==> e in xs' && ExecutionGrows(xs[e], xs'[e])
  }

  ghost predicate OwnersGrow(os: map<string, Owner>, os': map<string, Owner>) {
    forall o :: o in os ==>
                  && o in os'
                  && os[o].generation <= os'[o].generation
                  && os[o].pointerRevision <= os'[o].pointerRevision
                  && (os[o].committed ==> os'[o].committed)
  }

  predicate ClaimGrows(a: C.Row, b: C.Row) {
    && (a.recipient, a.seqNo, a.message) == (b.recipient, b.seqNo, b.message)
    && a.revision <= b.revision
    && C.ModeOf(a.claim) == C.ModeOf(b.claim)
    && (C.Bound(a.claim) ==> C.Bound(b.claim) && a.claim.decision == b.claim.decision)
  }

  ghost predicate ClaimsGrow(cs: C.Table, cs': C.Table) {
    forall id :: id in cs ==> id in cs' && ClaimGrows(cs[id], cs'[id])
  }

  ghost predicate Extends(s: State, t: State) {
    && AttemptsGrow(s.attempts, t.attempts)
    && ExecutionsGrow(s.executions, t.executions)
    && OwnersGrow(s.owners, t.owners)
    && ClaimsGrow(s.claims, t.claims)
    && s.audits <= t.audits
  }

  // ---- It is an order -----------------------------------------------------------------------------

  lemma AttemptsGrowFrom(a: map<Key, AttemptRow>, b: map<Key, AttemptRow>, c: map<Key, AttemptRow>)
    requires AttemptsGrow(a, b) && AttemptsGrow(b, c)
    ensures AttemptsGrow(a, c)
  {
    forall k | k in a ensures k in c && RowGrows(a[k], c[k]) {
      assert RowGrows(a[k], b[k]) && RowGrows(b[k], c[k]);
    }
  }

  lemma ExecutionsGrowFrom(a: map<string, Execution>, b: map<string, Execution>, c: map<string, Execution>)
    requires ExecutionsGrow(a, b) && ExecutionsGrow(b, c)
    ensures ExecutionsGrow(a, c)
  {
    forall e | e in a ensures e in c && ExecutionGrows(a[e], c[e]) {
      assert ExecutionGrows(a[e], b[e]) && ExecutionGrows(b[e], c[e]);
    }
  }

  lemma RestGrowsFrom(a: State, b: State, c: State)
    requires OwnersGrow(a.owners, b.owners) && OwnersGrow(b.owners, c.owners)
    requires ClaimsGrow(a.claims, b.claims) && ClaimsGrow(b.claims, c.claims)
    ensures OwnersGrow(a.owners, c.owners) && ClaimsGrow(a.claims, c.claims)
  {}

  lemma ExtendsFrom(a: State, b: State, c: State)
    requires Extends(a, b) && Extends(b, c)
    ensures Extends(a, c)
  {
    hide AttemptsGrow, ExecutionsGrow, OwnersGrow, ClaimsGrow;
    AttemptsGrowFrom(a.attempts, b.attempts, c.attempts);
    ExecutionsGrowFrom(a.executions, b.executions, c.executions);
    RestGrowsFrom(a, b, c);
  }

  lemma ExtendsSelf(s: State)
    ensures Extends(s, s)
  {}

  // ---- Each kind of change extends ------------------------------------------------------------------

  lemma ReclaimedGrows(cs: C.Table, xs: map<string, Execution>, e: string, kind: C.Kind)
    requires Claimed(xs, cs) && e in xs && kind in {C.EngagedKind, C.CompletedKind, C.DeferredKind, C.FailedKind}
    ensures ClaimsGrow(cs, Reclaimed(cs, xs[e].claims, kind))
  {
    forall id | id in cs
      ensures ClaimGrows(cs[id], Reclaimed(cs, xs[e].claims, kind)[id])
    {
      if id in xs[e].claims {
        assert ClaimOf(xs, cs, e, id);
        ReclaimedRowKeeps(cs[id], kind);
      }
    }
  }

  lemma ActivatedExtends(s: State, r: AttemptStart, now: nat)
    requires Inv(s) && StartAllowed(s, r)
    ensures Extends(s, Activated(s, r, now))
  {
    hide Numbered, TokensDistinct, Owned, Pointed, Phased, Claimed, Answered, Audited;
    NumberedKeys(s.executions, s.attempts, r.execution);
    ReclaimedGrows(s.claims, s.executions, r.execution, C.EngagedKind);
  }

  lemma AttemptGrows(as_: map<Key, AttemptRow>, k: Key, a: A.Attempt)
    requires k in as_ && as_[k].state.LiveAttempt? && Grows(as_[k].state, a)
    ensures AttemptsGrow(as_, as_[k := as_[k].(state := a, revision := as_[k].revision + 1)])
  {}

  lemma ExecutionRowGrows(xs: map<string, Execution>, e: string, after: Execution)
    requires e in xs ==> ExecutionGrows(xs[e], after)
    ensures ExecutionsGrow(xs, xs[e := after])
  {}

  lemma OwnerGrows(os: map<string, Owner>, o: string, after: Owner)
    requires o in os ==> os[o].generation <= after.generation && os[o].pointerRevision <= after.pointerRevision
                         && (os[o].committed ==> after.committed)
    ensures OwnersGrow(os, os[o := after])
  {}

  lemma ClaimRowGrows(cs: C.Table, id: string, row: C.Row)
    requires id in cs ==> ClaimGrows(cs[id], row)
    ensures ClaimsGrow(cs, cs[id := row])
  {}

  lemma ChangeExtends(s: State, k: Key, a: A.Attempt)
    requires k in s.attempts && s.attempts[k].state.LiveAttempt? && Grows(s.attempts[k].state, a)
    ensures Extends(s, WithAttempt(s, k, a))
  {
    hide AttemptsGrow, ExecutionsGrow, OwnersGrow, ClaimsGrow;
    ExtendsSelf(s);
    AttemptGrows(s.attempts, k, a);
  }

  lemma RowExtends(s: State, e: string, after: Execution, claims: C.Table)
    requires (e in s.executions ==> ExecutionGrows(s.executions[e], after)) && ClaimsGrow(s.claims, claims)
    ensures Extends(s, s.(executions := s.executions[e := after], claims := claims))
  {
    hide AttemptsGrow, ExecutionsGrow, OwnersGrow, ClaimsGrow;
    ExtendsSelf(s);
    ExecutionRowGrows(s.executions, e, after);
  }

  lemma ClaimsGrowSelf(cs: C.Table)
    ensures ClaimsGrow(cs, cs)
  {}

  lemma EndedExtends(s: State, e: string, outcome: A.Outcome, after: Execution)
    requires Inv(s) && e in s.executions && EndsWell(s.executions[e], outcome, after)
    requires after.revision >= s.executions[e].revision && after.obligations.Keys == s.executions[e].obligations.Keys
    ensures CurrentKey(s, e) in s.attempts && s.executions[e].owner in s.owners
    ensures Extends(s, Ended(s, e, outcome, after))
  {
    hide Numbered, TokensDistinct, Owned, Pointed, Phased, Claimed, Answered, Audited;
    hide AttemptsGrow, ExecutionsGrow, OwnersGrow, ClaimsGrow;
    CurrentIsActive(s, e);
    ReclaimedGrows(s.claims, s.executions, e, ClaimKind(after.lifecycle));
    AttemptGrows(s.attempts, CurrentKey(s, e), A.TerminalAttempt(outcome));
    ExecutionRowGrows(s.executions, e, after);
    var x := s.executions[e];
    OwnerGrows(s.owners, x.owner, Ended(s, e, outcome, after).owners[x.owner]);
  }

  // ---- Each command extends ----------------------------------------------------------------------------

  lemma SettleExtends(s: State, e: string, outcome: A.Outcome, now: nat)
    requires Inv(s) && e in s.executions && s.executions[e].owner in s.owners
    ensures Extends(s, Settle(s, e, outcome, now).state)
  {
    hide Inv, Extends;
    if SettleRefusal(s, e, outcome).None? {
      SettlementEndsWell(s, e, outcome, now);
      EndedExtends(s, e, outcome, SettledExecution(s.executions[e], outcome, now));
    } else {
      ExtendsSelf(s);
    }
  }

  lemma StartExtends(s: State, r: AttemptStart, now: nat)
    requires Inv(s)
    ensures Extends(s, Start(s, r, now).state)
  {
    hide Inv, Extends;
    if Start(s, r, now).answer.Started? {
      ActivatedExtends(s, r, now);
    } else {
      ExtendsSelf(s);
    }
  }

  lemma AdvanceExtends(s: State, f: Fence, phase: A.Phase, backendDone: bool, processDead: bool, progress: bool,
                       expected: nat)
    requires Inv(s)
    ensures Extends(s, Advance(s, f, phase, backendDone, processDead, progress, expected).state)
  {
    hide Inv, Extends;
    ExtendsSelf(s);
    if Advance(s, f, phase, backendDone, processDead, progress, expected).answer.Started? {
      FencedIsLive(s, f);
      var k := CurrentKey(s, f.execution);
      ChangeExtends(s, k, A.Observe(s.attempts[k].state, phase, backendDone, processDead, progress).attempt);
    }
  }

  lemma FailUnknownExtends(s: State, f: Fence, expected: nat, now: nat)
    requires Inv(s)
    ensures Extends(s, FailUnknown(s, f, expected, now).state)
  {
    hide Inv, Extends;
    ExtendsSelf(s);
    if Fenced(s, f) {
      FencedIsLive(s, f);
      var k := CurrentKey(s, f.execution);
      var a := s.attempts[k].state;
      if A.Final(a) {
        SettleExtends(s, f.execution, A.UnknownOutcome, now);
      } else {
        A.FinalObservationIsAccepted(a);
        var b := a.(backendDone := true, processDead := true);
        var mid := WithAttempt(s, k, b);
        ChangeExtends(s, k, b);
        LiveChangeKeeps(s, k, b);
        SettleExtends(mid, f.execution, A.UnknownOutcome, now);
        ExtendsFrom(s, mid, Settle(mid, f.execution, A.UnknownOutcome, now).state);
      }
    }
  }

  lemma ReplayExtends(s: State, e: string, replay: Replay)
    requires e in s.executions
    ensures Extends(s, WithReplay(s, e, replay))
  {
    ClaimsGrowSelf(s.claims);
    RowExtends(s, e, s.executions[e].(replay := replay), s.claims);
  }

  lemma SettleNonpublicationExtends(s: State, f: Fence, outcome: A.Outcome, proof: RetryProof, expected: nat, now: nat)
    requires Inv(s)
    ensures Extends(s, SettleNonpublication(s, f, outcome, proof, expected, now).state)
  {
    hide Inv, Extends;
    ExtendsSelf(s);
    if Fenced(s, f) {
      FencedIsLive(s, f);
      var replay := Prepared(s.executions[f.execution].replay, proof);
      var mid := WithReplay(s, f.execution, replay);
      ReplayExtends(s, f.execution, replay);
      ReplayChangeKeeps(s, f.execution, replay);
      SettleExtends(mid, f.execution, outcome, now);
      ExtendsFrom(s, mid, Settle(mid, f.execution, outcome, now).state);
    }
  }

  lemma RecordedExtends(s: State, m: MonitorCall)
    requires Inv(s) && MonitorRefusal(s, m).None?
    ensures CurrentKey(s, m.execution) in s.attempts && Extends(s, Recorded(s, m))
  {
    hide Inv, Extends;
    RecordedKeeps(s, m);
    var replay := Accumulated(s.executions[m.execution].replay, RecoveredFacts(m.stop));
    var mid := WithReplay(s, m.execution, replay);
    var k := CurrentKey(s, m.execution);
    ReplayExtends(s, m.execution, replay);
    ChangeExtends(mid, k, A.Record(s.attempts[k].state, m.backendDone));
    ExtendsFrom(s, mid, Recorded(s, m));
  }

  lemma AuditExtends(s: State, audit: Audit)
    ensures Extends(s, s.(audits := s.audits + [audit]))
  {}

  lemma TerminalizeExtends(s: State, m: MonitorCall, now: nat)
    requires Inv(s)
    ensures Extends(s, Terminalize(s, m, now).state)
  {
    hide Inv, Extends;
    ExtendsSelf(s);
    if MonitorRefusal(s, m).None? {
      RecordedKeeps(s, m);
      RecordedExtends(s, m);
      var recorded := Recorded(s, m);
      var k := CurrentKey(s, m.execution);
      if (A.BackendDone(s.attempts[k].state) || m.backendDone) && s.executions[m.execution].intents == {} {
        RecoverySettles(s, m);
        var settled := Settle(recorded, m.execution, RecoveredOutcome(m.stop), now).state;
        SettleExtends(recorded, m.execution, RecoveredOutcome(m.stop), now);
        ExtendsFrom(s, recorded, settled);
        AuditExtends(settled, Audit((m.execution, m.ordinal),
            settled.executions[m.execution].lifecycle.DeferredExecution?));
        ExtendsFrom(s, settled, Terminalize(s, m, now).state);
      }
    }
  }

  lemma PublicationExtends(s: State, f: Fence, target: string, facts: set<Fact>, now: nat)
    requires Inv(s)
    ensures Extends(s, Freeze(s, f, target).state)
    ensures Extends(s, Acknowledge(s, f, target, now).state)
    ensures Extends(s, ObserveFacts(s, f, facts).state)
  {
    hide Inv, Extends, ClaimsGrow;
    ExtendsSelf(s);
    ClaimsGrowSelf(s.claims);
    if Fenced(s, f) {
      FencedIsLive(s, f);
      RespondsAt(s, f.execution);
      var x := s.executions[f.execution];
      ReplayExtends(s, f.execution, Accumulated(x.replay, facts));
      if Freeze(s, f, target).answer.Applied? {
        RowExtends(s, f.execution, Freeze(s, f, target).state.executions[f.execution], s.claims);
      }
      if Acknowledge(s, f, target, now).answer.Applied? {
        AcknowledgedExtends(s, f, target, now);
      }
    }
  }

  lemma AcknowledgedExtends(s: State, f: Fence, target: string, now: nat)
    requires Inv(s) && Acknowledge(s, f, target, now).answer.Applied?
    ensures Extends(s, Acknowledge(s, f, target, now).state)
  {
    hide Inv, Extends, ClaimsGrow;
    ClaimsGrowSelf(s.claims);
    FencedIsLive(s, f);
    RespondsAt(s, f.execution);
    var x := s.executions[f.execution];
    var published := WithResponse(x, target, PublishedResponse);
    assert published.obligations.Keys == x.obligations.Keys;
    if forall t :: t in published.obligations ==> published.obligations[t].PublishedResponse? {
      var completed := published.(lifecycle := CompletedExecution(Last(x.lifecycle)), revision := x.revision + 1,
                                  updatedAt := Max(now, x.updatedAt));
      EndedExtends(s, f.execution, A.Succeeded, completed);
    } else {
      RowExtends(s, f.execution, published, s.claims);
    }
  }

  lemma EngagedWithGrows(s: State, c: Creation)
    requires CreationRefusal(s, c).None?
    ensures ClaimsGrow(s.claims, EngagedWith(s.claims, c))
  {
    forall id | id in s.claims
      ensures ClaimGrows(s.claims[id], EngagedWith(s.claims, c)[id])
    {
      if id in Members(c.sources) {
        SourceIsFree(s, c, id);
      }
    }
  }

  lemma ExecutionCommandsExtend(s: State, c: Creation, e: string, expected: nat, now: nat)
    requires Inv(s)
    ensures Extends(s, Create(s, c, now).state)
    ensures Extends(s, MarkPending(s, e, expected, now).state)
    ensures Extends(s, FailUnstarted(s, e, expected, now).state)
  {
    hide Numbered, TokensDistinct, Owned, Pointed, Phased, Claimed, Answered, Audited;
    hide Extends, ClaimsGrow;
    ExtendsSelf(s);
    ClaimsGrowSelf(s.claims);
    var created, marked, failed := Create(s, c, now), MarkPending(s, e, expected, now),
        FailUnstarted(s, e, expected, now);
    if created.answer.Applied? {
      EngagedWithGrows(s, c);
      RowExtends(s, c.execution, created.state.executions[c.execution], created.state.claims);
    }
    if marked.answer.Applied? {
      RowExtends(s, e, marked.state.executions[e], s.claims);
    }
    if failed.answer.Applied? {
      ReclaimedGrows(s.claims, s.executions, e, C.FailedKind);
      RowExtends(s, e, failed.state.executions[e], failed.state.claims);
    }
  }

  lemma ClaimsWellFormed(s: State, id: string)
    requires Inv(s) && id in s.claims
    ensures C.WellFormed(s.claims[id].claim)
  {
    hide Numbered, TokensDistinct, Owned, Pointed, Phased, Answered, Audited;
  }

  lemma ClaimCommandsExtend(s: State, id: string, row: C.Row, kind: C.Kind, expected: nat)
    requires Inv(s)
    ensures Extends(s, AcceptClaim(s, id, row).state)
    ensures Extends(s, TransitionClaim(s, id, kind, expected).state)
  {
    hide Inv;
    hide AttemptsGrow, ExecutionsGrow, OwnersGrow, ClaimsGrow;
    ExtendsSelf(s);
    var t := TransitionClaim(s, id, kind, expected);
    if t.answer.Applied? {
      ClaimsWellFormed(s, id);
      C.MovedKeeps(s.claims[id].claim, C.Step(kind));
      C.PreengagementStaysUnbound(s.claims[id].claim, kind);
      ClaimRowGrows(s.claims, id, t.state.claims[id]);
    }
    if AcceptClaim(s, id, row).answer.Applied? {
      ClaimRowGrows(s.claims, id, row);
    }
  }

  lemma OwnerCommandsExtend(s: State, owner: string, committed: bool, expected: nat)
    ensures Extends(s, Register(s, owner, committed).state)
    ensures Extends(s, Commit(s, owner).state)
    ensures Extends(s, AdvanceGeneration(s, owner, expected).state)
  {
    hide AttemptsGrow, ExecutionsGrow, OwnersGrow, ClaimsGrow;
    ExtendsSelf(s);
    if owner in s.owners {
      OwnerGrows(s.owners, owner, s.owners[owner].(committed := true));
      OwnerGrows(s.owners, owner, s.owners[owner].(generation := s.owners[owner].generation + 1));
    } else {
      OwnerGrows(s.owners, owner, Owner(committed, 1, None, 0));
    }
  }

  lemma PerformExtends(s: State, c: Command, now: nat)
    requires Inv(s)
    ensures Extends(s, Perform(s, c, now).state)
  {
    hide Inv, Extends;
    match c
    case DoRegister(owner, committed) => OwnerCommandsExtend(s, owner, committed, 0);
    case DoCommit(owner) => OwnerCommandsExtend(s, owner, true, 0);
    case DoAdvanceGeneration(owner, expected) => OwnerCommandsExtend(s, owner, true, expected);
    case DoAccept(id, row) => ClaimCommandsExtend(s, id, row, C.FailedKind, 0);
    case DoTransition(id, kind, expected) => ClaimCommandsExtend(s, id, C.Row("", 0, "", C.Passive, 1), kind, expected);
    case DoCreate(creation) => ExecutionCommandsExtend(s, creation, "", 0, now);
    case DoMarkPending(e, expected) => ExecutionCommandsExtend(s, Creation("", ClaimlessOrigin, "", 0, []), e,
        expected, now);
    case DoFailUnstarted(e, expected) => ExecutionCommandsExtend(s, Creation("", ClaimlessOrigin, "", 0, []), e,
        expected, now);
    case DoStart(r) => StartExtends(s, r, now);
    case DoAdvance(f, phase, done, dead, progress, expected) => AdvanceExtends(s, f, phase, done, dead, progress,
        expected);
    case DoFailUnknown(f, expected) => FailUnknownExtends(s, f, expected, now);
    case DoSettle(f, outcome, proof, expected) => SettleNonpublicationExtends(s, f, outcome, proof, expected, now);
    case DoTerminalize(call) => TerminalizeExtends(s, call, now);
    case DoFreeze(f, target) => PublicationExtends(s, f, target, {}, now);
    case DoAcknowledge(f, target) => PublicationExtends(s, f, target, {}, now);
    case DoObserve(f, facts) => PublicationExtends(s, f, "", facts, now);
  }

  // Whatever is performed, in whatever order.
  lemma {:induction false} EveryRunExtends(s: State, commands: seq<(Command, nat)>)
    requires Inv(s)
    ensures Inv(Run(s, commands)) && Extends(s, Run(s, commands))
  {
    hide Inv, Extends;
    ExtendsSelf(s);
    EveryRunKeeps(s, commands);
    if commands != [] {
      var before := commands[..|commands| - 1];
      var last := commands[|commands| - 1];
      EveryRunExtends(s, before);
      PerformExtends(Run(s, before), last.0, last.1);
      ExtendsFrom(s, Run(s, before), Run(s, commands));
    }
  }
}
