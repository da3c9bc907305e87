/** What every write of the coordinator keeps. Each part speaks of as few tables as it can, and each
    kind of row change is shown to keep every part. */
module CoordinatorInvariant {
  import opened Options
  import opened Coordinators
  import A = Attempts
  import C = Claims

  // ---- The parts -------------------------------------------------------------------------------

  // The attempts of an execution are numbered 1..n without a gap, within its budget.
  ghost predicate Numbered(xs: map<string, Execution>, as_: map<Key, AttemptRow>) {
    && (forall k :: k in as_ ==> k.0 in xs && 1 <= k.1 <= Last(xs[k.0].lifecycle))
    && (forall e, n :: e in xs && 1 <= n <= Last(xs[e].lifecycle) ==> (e, n) in as_)
    && (forall e :: e in xs ==> Last(xs[e].lifecycle) <= xs[e].maxAttempts)
    && (forall e :: e in xs && !xs[e].lifecycle.FailedExecution? && !xs[e].lifecycle.QueuedExecution?
                    && !xs[e].lifecycle.PendingExecution?
                    ==> Last(xs[e].lifecycle) >= 1)
    && (forall e :: e in xs && xs[e].lifecycle.FailedExecution? && xs[e].lifecycle.last.Some?
         ==> xs[e].lifecycle.last.value >= 1)
  }

  // No token was ever issued twice.
  ghost predicate TokensDistinct(as_: map<Key, AttemptRow>) {
    forall k, k' :: k in as_ && k' in as_ && as_[k].digest == as_[k'].digest ==> k == k'
  }

  ghost predicate Owned(os: map<string, Owner>, xs: map<string, Execution>, as_: map<Key, AttemptRow>) {
    && (forall e :: e in xs ==> xs[e].owner in os && xs[e].createdAt <= xs[e].updatedAt)
    && (forall k :: k in as_ ==>
                      && k.0 in xs
                      && as_[k].owner == xs[k.0].owner
                      && as_[k].createdAt >= xs[k.0].createdAt
                      && as_[k].generation <= os[xs[k.0].owner].generation
                      && (as_[k].state.LiveAttempt? ==> as_[k].generation == os[xs[k.0].owner].generation))
  }

  // An owner points at exactly the attempt its one active execution is running.
  ghost predicate Pointed(os: map<string, Owner>, xs: map<string, Execution>) {
    && (forall o :: o in os && os[o].pointer.Some? ==>
                      && os[o].pointer.value.0 in xs
                      && xs[os[o].pointer.value.0].owner == o
                      && xs[os[o].pointer.value.0].lifecycle == ActiveExecution(os[o].pointer.value.1))
    && (forall e :: e in xs && xs[e].lifecycle.ActiveExecution? ==>
                      xs[e].owner in os && os[xs[e].owner].pointer == Some((e, xs[e].lifecycle.ordinal)))
  }

  // The state an execution's lifecycle allows its latest attempt.
  predicate Fits(l: Lifecycle, a: A.Attempt) {
    match l
    case ActiveExecution(_) => a.LiveAttempt?
    case DeferredExecution(_) => a == A.TerminalAttempt(A.AttemptFailed)
    case CompletedExecution(_) => a == A.TerminalAttempt(A.Succeeded)
    case FailedExecution(_) => a.TerminalAttempt? && !a.outcome.Succeeded?
    case _ => true
  }

  // Every attempt before the latest ended known failed, under an older generation than its successor.
  ghost predicate Phased(xs: map<string, Execution>, as_: map<Key, AttemptRow>) {
    && (forall k :: k in as_ && k.0 in xs && k.1 == Last(xs[k.0].lifecycle) ==> Fits(xs[k.0].lifecycle, as_[k].state))
    && (forall k :: k in as_ && k.0 in xs && k.1 < Last(xs[k.0].lifecycle)
         ==> as_[k].state == A.TerminalAttempt(A.AttemptFailed))
    && (forall k :: k in as_ && (k.0, k.1 + 1) in as_ ==> as_[k].generation < as_[(k.0, k.1 + 1)].generation)
  }

  ghost predicate ClaimOf(xs: map<string, Execution>, cs: C.Table, e: string, id: string)
    requires e in xs
  {
    && id in cs
    && C.ExecutionOf(cs[id].claim) == Some(e)
    && C.KindOf(cs[id].claim) == ClaimKind(xs[e].lifecycle)
    && cs[id].recipient == xs[e].owner
  }

  // An execution's claims follow its lifecycle, and a bound claim belongs to its execution.
  ghost predicate Claimed(xs: map<string, Execution>, cs: C.Table) {
    && C.OneClaimPerMessage(cs)
    && (forall id :: id in cs ==> C.WellFormed(cs[id].claim))
    && (forall e, id :: e in xs && id in xs[e].claims ==> ClaimOf(xs, cs, e, id))
    && (forall id :: id in cs && C.Bound(cs[id].claim) ==>
                       var e := C.ExecutionOf(cs[id].claim).value; e in xs && id in xs[e].claims)
    && (forall e :: e in xs ==> Distinct(xs[e].claims) && (xs[e].origin.ClaimlessOrigin? ==> xs[e].claims == []))
  }

  // The responses an execution's lifecycle allows.
  predicate Responds(x: Execution) {
    && (x.origin.ClaimlessOrigin? <==> x.obligations.Keys == {})
    && x.intents <= x.obligations.Keys
    && (x.intents != {} ==> x.lifecycle.ActiveExecution? || x.lifecycle.CompletedExecution?)
    && match x.lifecycle
       case DeferredExecution(n) =>
         && n < x.maxAttempts && AllowsRetry(x.replay)
         && forall t :: t in x.obligations ==> x.obligations[t].DeferredResponse?
       case CompletedExecution(_) => forall t :: t in x.obligations ==> x.obligations[t].PublishedResponse?
       case FailedExecution(_) => forall t :: t in x.obligations ==> x.obligations[t].FailedResponse?
       case _ => forall t :: t in x.obligations ==>
                   if t in x.intents then x.obligations[t].PublishingResponse? || x.obligations[t].PublishedResponse?
                   else x.obligations[t].PendingResponse?
  }

  // A frozen reply belongs to an attempt that settled with both facts.
  ghost predicate Answered(xs: map<string, Execution>, as_: map<Key, AttemptRow>) {
    forall e :: e in xs ==>
                  && Responds(xs[e])
                  && (xs[e].lifecycle.ActiveExecution? && xs[e].intents != {} && (e, Last(xs[e].lifecycle)) in as_
                      ==> A.ReadyToSucceed(as_[(e, Last(xs[e].lifecycle))].state))
  }

  // An attempt is audited at most once, and only when it ended unsuccessfully.
  ghost predicate Audited(as_: map<Key, AttemptRow>, audits: seq<Audit>) {
    && (forall i :: 0 <= i < |audits| ==>
                      && audits[i].key in as_
                      && as_[audits[i].key].state.TerminalAttempt?
                      && !as_[audits[i].key].state.outcome.Succeeded?)
    && (forall i, j :: 0 <= i < j < |audits| ==> audits[i].key != audits[j].key)
  }

  ghost predicate Inv(s: State) {
    && Numbered(s.executions, s.attempts)
    && TokensDistinct(s.attempts)
    && Owned(s.owners, s.executions, s.attempts)
    && Pointed(s.owners, s.executions)
    && Phased(s.executions, s.attempts)
    && Claimed(s.executions, s.claims)
    && Answered(s.executions, s.attempts)
    && Audited(s.attempts, s.audits)
  }

  lemma EmptyHolds()
    ensures Inv(EMPTY)
  {
    assert Claimed(EMPTY.executions, EMPTY.claims);
    assert Owned(EMPTY.owners, EMPTY.executions, EMPTY.attempts) && Pointed(EMPTY.owners, EMPTY.executions);
  }

  // ---- A current execution is active, and its attempt live -----------------------------------------

  lemma CurrentIsActive(s: State, e: string)
    requires Inv(s) && e in s.executions
    ensures IsCurrent(s, e) <==> s.executions[e].lifecycle.ActiveExecution?
    ensures IsCurrent(s, e) ==> CurrentKey(s, e) in s.attempts && s.attempts[CurrentKey(s, e)].state.LiveAttempt?
    ensures s.executions[e].owner in s.owners
    ensures IsCurrent(s, e) ==> s.owners[s.executions[e].owner].pointer == Some(CurrentKey(s, e))
  {
    hide TokensDistinct, Claimed, Answered, Audited;
  }

  // ---- Starting ---------------------------------------------------------------------------------------

  ghost predicate StartAllowed(s: State, r: AttemptStart) {
    && r.execution in s.executions && s.executions[r.execution].owner in s.owners
    && !TokenIssued(s, r.digest)
    && StartRefusal(s, r).None?
  }

  // The next attempt of an execution, in range and after a failed one.
  ghost predicate Next(xs: map<string, Execution>, e: string, after: Execution) {
    && e in xs && StartsAttempt(xs[e].lifecycle)
    && after.lifecycle == ActiveExecution(Last(xs[e].lifecycle) + 1)
    && after.maxAttempts == xs[e].maxAttempts >= Last(after.lifecycle)
  }

  lemma NextNumbers(xs: map<string, Execution>, as_: map<Key, AttemptRow>, e: string, after: Execution, row: AttemptRow)
    requires Numbered(xs, as_) && Next(xs, e, after)
    ensures (e, Last(after.lifecycle)) !in as_ && (e, Last(after.lifecycle) + 1) !in as_
    ensures Numbered(xs[e := after], as_[(e, Last(after.lifecycle)) := row])
  {}

  lemma NextTokens(as_: map<Key, AttemptRow>, k: Key, row: AttemptRow)
    requires TokensDistinct(as_) && forall j :: j in as_ ==> as_[j].digest != row.digest
    ensures TokensDistinct(as_[k := row])
  {}

  lemma NextPhases(xs: map<string, Execution>, as_: map<Key, AttemptRow>, e: string, after: Execution, row: AttemptRow)
    requires Phased(xs, as_) && Next(xs, e, after) && row.state.LiveAttempt?
    requires forall k :: k in as_ && k.0 == e ==> k.1 <= Last(xs[e].lifecycle)
    requires (e, Last(xs[e].lifecycle)) in as_ ==>
               && xs[e].lifecycle.DeferredExecution?
               && as_[(e, Last(xs[e].lifecycle))].generation < row.generation
    ensures Phased(xs[e := after], as_[(e, Last(after.lifecycle)) := row])
  {}

  lemma ActivatedNumbers(s: State, r: AttemptStart, now: nat)
    requires StartAllowed(s, r) && Numbered(s.executions, s.attempts) && TokensDistinct(s.attempts)
    ensures var t := Activated(s, r, now); Numbered(t.executions, t.attempts) && TokensDistinct(t.attempts)
  {
    hide Numbered, TokensDistinct;
    var t := Activated(s, r, now);
    var row := t.attempts[(r.execution, r.ordinal)];
    NextNumbers(s.executions, s.attempts, r.execution, t.executions[r.execution], row);
    NextTokens(s.attempts, (r.execution, r.ordinal), row);
  }

  lemma ActivatedOwns(s: State, r: AttemptStart, now: nat)
    requires StartAllowed(s, r) && Owned(s.owners, s.executions, s.attempts)
    ensures var t := Activated(s, r, now); Owned(t.owners, t.executions, t.attempts)
  {}

  lemma ActivatedPoints(s: State, r: AttemptStart, now: nat)
    requires StartAllowed(s, r) && Pointed(s.owners, s.executions)
    ensures var t := Activated(s, r, now); Pointed(t.owners, t.executions)
  {}

  lemma NumberedKeys(xs: map<string, Execution>, as_: map<Key, AttemptRow>, e: string)
    requires Numbered(xs, as_) && e in xs
    ensures forall k :: k in as_ && k.0 == e ==> 1 <= k.1 <= Last(xs[e].lifecycle)
  {}

  lemma ActivatedPhases(s: State, r: AttemptStart, now: nat)
    requires StartAllowed(s, r) && Numbered(s.executions, s.attempts) && Phased(s.executions, s.attempts)
    ensures var t := Activated(s, r, now); Phased(t.executions, t.attempts)
  {
    hide Numbered, Phased;
    var t := Activated(s, r, now);
    NumberedKeys(s.executions, s.attempts, r.execution);
    NextPhases(s.executions, s.attempts, r.execution, t.executions[r.execution], t.attempts[(r.execution, r.ordinal)]);
  }

  lemma ActivatedAudits(s: State, r: AttemptStart, now: nat)
    requires StartAllowed(s, r) && Numbered(s.executions, s.attempts) && Audited(s.attempts, s.audits)
    ensures var t := Activated(s, r, now); Audited(t.attempts, t.audits)
  {
    assert (r.execution, r.ordinal) !in s.attempts;
  }

  lemma ActivatedAnswers(s: State, r: AttemptStart, now: nat)
    requires StartAllowed(s, r) && Answered(s.executions, s.attempts)
    ensures var t := Activated(s, r, now); Answered(t.executions, t.attempts)
  {
    var t := Activated(s, r, now);
    assert Responds(s.executions[r.execution]) && Responds(t.executions[r.execution]);
  }

  // Rebuilding an execution's claims for its new lifecycle keeps mode, binding and ownership.
  lemma ReclaimedRowKeeps(row: C.Row, kind: C.Kind)
    requires C.WellFormed(row.claim) && C.Bound(row.claim)
    requires kind in {C.EngagedKind, C.CompletedKind, C.DeferredKind, C.FailedKind}
    ensures var after := ReclaimedRow(row, kind);
            && C.WellFormed(after.claim)
            && C.KindOf(after.claim) == kind
            && C.Bound(after.claim) && after.claim.decision == row.claim.decision
            && after == row.(claim := after.claim, revision := row.revision + 1)
  {}

  lemma ReclaimedKeeps(xs: map<string, Execution>, cs: C.Table, e: string, after: Execution)
    requires Claimed(xs, cs) && e in xs
    requires after.claims == xs[e].claims && after.origin == xs[e].origin && after.owner == xs[e].owner
    ensures Claimed(xs[e := after], Reclaimed(cs, xs[e].claims, ClaimKind(after.lifecycle)))
  {
    hide C.WellFormed, ClaimKind, ReclaimedRow, Distinct, C.KindOf, C.ExecutionOf;
    var kind := ClaimKind(after.lifecycle);
    var cs' := Reclaimed(cs, xs[e].claims, kind);
    forall id | id in xs[e].claims
      ensures ReclaimedClaim(cs, cs', e, id, kind)
    {
      ReclaimedClaimKeeps(xs, cs, e, id, kind);
    }
    assert forall id :: id in cs && id !in xs[e].claims ==> cs'[id] == cs[id];
    var xs' := xs[e := after];
    forall f, id | f in xs' && id in xs'[f].claims
      ensures ClaimOf(xs', cs', f, id)
    {
      assert ClaimOf(xs, cs, f, id);
    }
    assert forall id :: id in cs' ==> cs'[id].recipient == cs[id].recipient && cs'[id].seqNo == cs[id].seqNo;
  }

  ghost predicate ReclaimedClaim(cs: C.Table, cs': C.Table, e: string, id: string, kind: C.Kind) {
    && id in cs && id in cs'
    && C.WellFormed(cs'[id].claim) && C.KindOf(cs'[id].claim) == kind
    && C.ExecutionOf(cs'[id].claim) == Some(e) && cs'[id].recipient == cs[id].recipient && cs'[id].seqNo == cs[id].seqNo
  }

  lemma ReclaimedClaimKeeps(xs: map<string, Execution>, cs: C.Table, e: string, id: string, kind: C.Kind)
    requires Claimed(xs, cs) && e in xs && id in xs[e].claims && (exists l: Lifecycle :: kind == ClaimKind(l))
    ensures ReclaimedClaim(cs, Reclaimed(cs, xs[e].claims, kind), e, id, kind)
  {
    assert ClaimOf(xs, cs, e, id);
    ReclaimedRowKeeps(cs[id], kind);
  }

  // An execution whose claims keep their state.
  lemma SameKindKeeps(xs: map<string, Execution>, cs: C.Table, e: string, after: Execution)
    requires Claimed(xs, cs) && e in xs
    requires after.claims == xs[e].claims && after.origin == xs[e].origin && after.owner == xs[e].owner
    requires ClaimKind(after.lifecycle) == ClaimKind(xs[e].lifecycle)
    ensures Claimed(xs[e := after], cs)
  {
    var xs' := xs[e := after];
    forall f, id | f in xs' && id in xs'[f].claims
      ensures ClaimOf(xs', cs, f, id)
    {
      assert ClaimOf(xs, cs, f, id);
    }
  }

  lemma ActivatedClaims(s: State, r: AttemptStart, now: nat)
    requires StartAllowed(s, r) && Claimed(s.executions, s.claims)
    ensures var t := Activated(s, r, now); Claimed(t.executions, t.claims)
  {
    hide Claimed;
    var x := s.executions[r.execution];
    var after := Activated(s, r, now).executions[r.execution];
    if x.lifecycle.DeferredExecution? {
      ReclaimedKeeps(s.executions, s.claims, r.execution, after);
    } else {
      SameKindKeeps(s.executions, s.claims, r.execution, after);
    }
  }

  lemma ActivatedKeeps(s: State, r: AttemptStart, now: nat)
    requires Inv(s) && StartAllowed(s, r)
    ensures Inv(Activated(s, r, now))
  {
    hide Numbered, TokensDistinct, Owned, Pointed, Phased, Claimed, Answered, Audited;
    ActivatedNumbers(s, r, now);
    ActivatedOwns(s, r, now);
    ActivatedPoints(s, r, now);
    ActivatedPhases(s, r, now);
    ActivatedAudits(s, r, now);
    ActivatedAnswers(s, r, now);
    ActivatedClaims(s, r, now);
  }

  // ---- Changing the attempt an execution is at --------------------------------------------------------

  // The same attempt in another state; every other row stays.
  ghost predicate Changes(as_: map<Key, AttemptRow>, as': map<Key, AttemptRow>, k: Key, a: A.Attempt) {
    k in as_ && as' == as_[k := as_[k].(state := a, revision := as_[k].revision + 1)]
  }

  lemma ChangeTokens(as_: map<Key, AttemptRow>, as': map<Key, AttemptRow>, k: Key, a: A.Attempt)
    requires TokensDistinct(as_) && Changes(as_, as', k, a)
    ensures TokensDistinct(as')
  {}

  lemma ChangeNumbers(xs: map<string, Execution>, as_: map<Key, AttemptRow>, as': map<Key, AttemptRow>, k: Key,
                      a: A.Attempt)
    requires Numbered(xs, as_) && Changes(as_, as', k, a)
    ensures Numbered(xs, as')
  {}

  lemma ChangeOwns(os: map<string, Owner>, xs: map<string, Execution>, as_: map<Key, AttemptRow>,
                   as': map<Key, AttemptRow>, k: Key, a: A.Attempt)
    requires Owned(os, xs, as_) && Changes(as_, as', k, a) && as_[k].state.LiveAttempt?
    ensures Owned(os, xs, as')
  {}

  lemma ChangeAudits(as_: map<Key, AttemptRow>, as': map<Key, AttemptRow>, audits: seq<Audit>, k: Key, a: A.Attempt)
    requires Audited(as_, audits) && Changes(as_, as', k, a) && as_[k].state.LiveAttempt?
    ensures Audited(as', audits)
  {}

  // A live attempt is the latest of an active execution.
  lemma LiveChangePhases(xs: map<string, Execution>, as_: map<Key, AttemptRow>, as': map<Key, AttemptRow>, k: Key,
                         a: A.Attempt)
    requires Numbered(xs, as_) && Phased(xs, as_) && Changes(as_, as', k, a) && as_[k].state.LiveAttempt?
        && a.LiveAttempt?
    ensures Phased(xs, as')
  {
    assert k.1 == Last(xs[k.0].lifecycle);
  }

  lemma LiveChangeAnswers(xs: map<string, Execution>, as_: map<Key, AttemptRow>, as': map<Key, AttemptRow>, k: Key,
                          a: A.Attempt)
    requires Answered(xs, as_) && Changes(as_, as', k, a)
    requires A.ReadyToSucceed(as_[k].state) ==> A.ReadyToSucceed(a)
    ensures Answered(xs, as')
  {}

  lemma LiveChangeKeeps(s: State, k: Key, a: A.Attempt)
    requires Inv(s) && k in s.attempts && s.attempts[k].state.LiveAttempt? && a.LiveAttempt?
    requires A.ReadyToSucceed(s.attempts[k].state) ==> A.ReadyToSucceed(a)
    ensures Inv(WithAttempt(s, k, a))
  {
    hide Numbered, TokensDistinct, Owned, Pointed, Phased, Claimed, Answered, Audited;
    var after := WithAttempt(s, k, a).attempts;
    ChangeTokens(s.attempts, after, k, a);
    ChangeNumbers(s.executions, s.attempts, after, k, a);
    ChangeOwns(s.owners, s.executions, s.attempts, after, k, a);
    ChangeAudits(s.attempts, after, s.audits, k, a);
    LiveChangePhases(s.executions, s.attempts, after, k, a);
    LiveChangeAnswers(s.executions, s.attempts, after, k, a);
  }

  // ---- Changing an execution while its attempt stays ----------------------------------------------------

  // The next row keeps the execution's identity, its latest attempt and whether it is active.
  ghost predicate Follows(x: Execution, after: Execution) {
    && (after.origin, after.owner, after.maxAttempts, after.createdAt, after.claims)
       == (x.origin, x.owner, x.maxAttempts, x.createdAt, x.claims)
    && after.updatedAt >= x.updatedAt
    && Last(after.lifecycle) == Last(x.lifecycle)
    && (after.lifecycle == x.lifecycle || after.lifecycle.PendingExecution? || after.lifecycle == FailedExecution(None))
    && (x.lifecycle.ActiveExecution? ==> after.lifecycle == x.lifecycle)
    && Responds(after)
  }

  lemma FollowNumbers(xs: map<string, Execution>, as_: map<Key, AttemptRow>, e: string, after: Execution)
    requires Numbered(xs, as_) && e in xs && Follows(xs[e], after)
    ensures Numbered(xs[e := after], as_)
  {}

  lemma FollowOwns(os: map<string, Owner>, xs: map<string, Execution>, as_: map<Key, AttemptRow>, e: string,
                   after: Execution)
    requires Owned(os, xs, as_) && Pointed(os, xs) && e in xs && Follows(xs[e], after)
    ensures Owned(os, xs[e := after], as_) && Pointed(os, xs[e := after])
  {}

  lemma FollowPhases(xs: map<string, Execution>, as_: map<Key, AttemptRow>, e: string, after: Execution)
    requires Numbered(xs, as_) && Phased(xs, as_) && e in xs && Follows(xs[e], after)
    ensures Phased(xs[e := after], as_)
  {}

  lemma FollowAnswers(xs: map<string, Execution>, as_: map<Key, AttemptRow>, e: string, after: Execution)
    requires Answered(xs, as_) && e in xs && Follows(xs[e], after)
    requires after.lifecycle.ActiveExecution? && after.intents != {} && (e, Last(after.lifecycle)) in as_
             ==> A.ReadyToSucceed(as_[(e, Last(after.lifecycle))].state)
    ensures Answered(xs[e := after], as_)
  {}

  lemma FollowKeeps(s: State, e: string, after: Execution, claims: C.Table)
    requires Inv(s) && e in s.executions && Follows(s.executions[e], after)
    requires after.lifecycle.ActiveExecution? && after.intents != {} && (e, Last(after.lifecycle)) in s.attempts
             ==> A.ReadyToSucceed(s.attempts[(e, Last(after.lifecycle))].state)
    requires Claimed(s.executions[e := after], claims)
    ensures Inv(s.(executions := s.executions[e := after], claims := claims))
  {
    hide Numbered, TokensDistinct, Owned, Pointed, Phased, Claimed, Answered, Audited;
    FollowNumbers(s.executions, s.attempts, e, after);
    FollowOwns(s.owners, s.executions, s.attempts, e, after);
    FollowPhases(s.executions, s.attempts, e, after);
    FollowAnswers(s.executions, s.attempts, e, after);
  }

  lemma RespondsAt(s: State, e: string)
    requires Inv(s) && e in s.executions
    ensures Responds(s.executions[e])
    ensures s.executions[e].lifecycle.ActiveExecution? && s.executions[e].intents != {}
            && CurrentKey(s, e) in s.attempts
            ==> A.ReadyToSucceed(s.attempts[CurrentKey(s, e)].state)
  {
    hide Numbered, TokensDistinct, Owned, Pointed, Phased, Claimed, Audited;
  }

  lemma ReplayChangeKeeps(s: State, e: string, replay: Replay)
    requires Inv(s) && e in s.executions && s.executions[e].lifecycle.ActiveExecution?
    ensures Inv(WithReplay(s, e, replay))
  {
    hide Numbered, TokensDistinct, Owned, Pointed, Phased, Claimed, Answered, Audited;
    var after := s.executions[e].(replay := replay);
    RespondsAt(s, e);
    SameKindKeeps(s.executions, s.claims, e, after);
    FollowKeeps(s, e, after, s.claims);
  }

  // ---- Ending the current attempt -----------------------------------------------------------------------------

  // What `Ended` may write as the execution's next row.
  ghost predicate EndsWell(x: Execution, outcome: A.Outcome, after: Execution) {
    && x.lifecycle.ActiveExecution?
    && after.(lifecycle := x.lifecycle, revision := x.revision, updatedAt := x.updatedAt, replay := x.replay,
              obligations := x.obligations) == x
    && after.updatedAt >= x.updatedAt
    && Last(after.lifecycle) == Last(x.lifecycle)
    && !after.lifecycle.ActiveExecution?
    && Fits(after.lifecycle, A.TerminalAttempt(outcome))
    && Responds(after)
  }

  lemma EndedNumbers(xs: map<string, Execution>, as_: map<Key, AttemptRow>, as': map<Key, AttemptRow>, e: string,
                     outcome: A.Outcome, after: Execution)
    requires Numbered(xs, as_) && e in xs && EndsWell(xs[e], outcome, after)
    requires Changes(as_, as', (e, Last(xs[e].lifecycle)), A.TerminalAttempt(outcome))
    ensures Numbered(xs[e := after], as')
  {}

  lemma EndedPhases(xs: map<string, Execution>, as_: map<Key, AttemptRow>, as': map<Key, AttemptRow>, e: string,
                    outcome: A.Outcome, after: Execution)
    requires Phased(xs, as_) && e in xs && EndsWell(xs[e], outcome, after)
    requires Changes(as_, as', (e, Last(xs[e].lifecycle)), A.TerminalAttempt(outcome))
    ensures Phased(xs[e := after], as')
  {}

  lemma EndedOwns(s: State, e: string, outcome: A.Outcome, after: Execution)
    requires Owned(s.owners, s.executions, s.attempts) && Pointed(s.owners, s.executions)
    requires e in s.executions && CurrentKey(s, e) in s.attempts && s.attempts[CurrentKey(s, e)].state.LiveAttempt?
    requires EndsWell(s.executions[e], outcome, after)
    ensures var t := Ended(s, e, outcome, after);
            Owned(t.owners, t.executions, t.attempts) && Pointed(t.owners, t.executions)
  {}

  lemma EndedAnswers(xs: map<string, Execution>, as_: map<Key, AttemptRow>, as': map<Key, AttemptRow>, e: string,
                     outcome: A.Outcome, after: Execution)
    requires Answered(xs, as_) && e in xs && EndsWell(xs[e], outcome, after)
    requires Changes(as_, as', (e, Last(xs[e].lifecycle)), A.TerminalAttempt(outcome))
    ensures Answered(xs[e := after], as')
  {}

  lemma EndedKeeps(s: State, e: string, outcome: A.Outcome, after: Execution)
    requires Inv(s) && e in s.executions && EndsWell(s.executions[e], outcome, after)
    ensures CurrentKey(s, e) in s.attempts && s.executions[e].owner in s.owners
    ensures Inv(Ended(s, e, outcome, after))
  {
    hide Numbered, TokensDistinct, Owned, Pointed, Phased, Claimed, Answered, Audited, Responds, Fits, Reclaimed,
        ClaimKind;
    CurrentIsActive(s, e);
    var as' := Ended(s, e, outcome, after).attempts;
    var k, a := CurrentKey(s, e), A.TerminalAttempt(outcome);
    ChangeTokens(s.attempts, as', k, a);
    ChangeAudits(s.attempts, as', s.audits, k, a);
    EndedNumbers(s.executions, s.attempts, as', e, outcome, after);
    EndedPhases(s.executions, s.attempts, as', e, outcome, after);
    EndedOwns(s, e, outcome, after);
    EndedAnswers(s.executions, s.attempts, as', e, outcome, after);
    ReclaimedKeeps(s.executions, s.claims, e, after);
  }

  lemma DispositionEndsWell(x: Execution, outcome: A.Outcome, now: nat)
    requires x.lifecycle.ActiveExecution? && x.intents == {} && Responds(x)
    requires outcome.Succeeded? ==> x.obligations.Keys == {}
    ensures EndsWell(x, outcome, SettledExecution(x, outcome, now))
  {}

  // A settlement that is not refused writes a row its lifecycle allows.
  lemma SettlementEndsWell(s: State, e: string, outcome: A.Outcome, now: nat)
    requires Inv(s) && e in s.executions && SettleRefusal(s, e, outcome).None?
    ensures EndsWell(s.executions[e], outcome, SettledExecution(s.executions[e], outcome, now))
  {
    hide Inv;
    CurrentIsActive(s, e);
    RespondsAt(s, e);
    var x := s.executions[e];
    if outcome.Succeeded? {
      assert forall t :: t !in x.obligations;
    }
    DispositionEndsWell(x, outcome, now);
  }

  lemma SettleKeeps(s: State, e: string, outcome: A.Outcome, now: nat)
    requires Inv(s) && e in s.executions && s.executions[e].owner in s.owners
    ensures Inv(Settle(s, e, outcome, now).state)
  {
    hide Inv;
    if SettleRefusal(s, e, outcome).None? {
      SettlementEndsWell(s, e, outcome, now);
      EndedKeeps(s, e, outcome, SettledExecution(s.executions[e], outcome, now));
    }
  }

  // ---- Each command -----------------------------------------------------------------------------------------------

  lemma StartKeeps(s: State, r: AttemptStart, now: nat)
    requires Inv(s)
    ensures Inv(Start(s, r, now).state)
  {
    hide Inv;
    if Start(s, r, now).answer.Started? {
      ActivatedKeeps(s, r, now);
    }
  }

  lemma FencedIsLive(s: State, f: Fence)
    requires Inv(s) && Fenced(s, f)
    ensures f.execution in s.executions && IsCurrent(s, f.execution)
        && s.executions[f.execution].lifecycle == ActiveExecution(f.ordinal)
    ensures s.executions[f.execution].owner in s.owners
    ensures CurrentKey(s, f.execution) == (f.execution, f.ordinal)
    ensures CurrentKey(s, f.execution) in s.attempts && s.attempts[CurrentKey(s, f.execution)].state.LiveAttempt?
  {
    hide Inv;
    CurrentIsActive(s, f.execution);
  }

  lemma AdvanceKeeps(s: State, f: Fence, phase: A.Phase, backendDone: bool, processDead: bool, progress: bool,
                     expected: nat)
    requires Inv(s)
    ensures Inv(Advance(s, f, phase, backendDone, processDead, progress, expected).state)
  {
    hide Inv;
    if Advance(s, f, phase, backendDone, processDead, progress, expected).answer.Started? {
      FencedIsLive(s, f);
      var k := CurrentKey(s, f.execution);
      LiveChangeKeeps(s, k, A.Observe(s.attempts[k].state, phase, backendDone, processDead, progress).attempt);
    }
  }

  lemma FailUnknownKeeps(s: State, f: Fence, expected: nat, now: nat)
    requires Inv(s)
    ensures Inv(FailUnknown(s, f, expected, now).state)
  {
    hide Inv;
    if Fenced(s, f) {
      FencedIsLive(s, f);
      var k := CurrentKey(s, f.execution);
      var a := s.attempts[k].state;
      if A.Final(a) {
        SettleKeeps(s, f.execution, A.UnknownOutcome, now);
      } else {
        A.FinalObservationIsAccepted(a);
        var b := a.(backendDone := true, processDead := true);
        LiveChangeKeeps(s, k, b);
        SettleKeeps(WithAttempt(s, k, b), f.execution, A.UnknownOutcome, now);
      }
    }
  }

  lemma SettleNonpublicationKeeps(s: State, f: Fence, outcome: A.Outcome, proof: RetryProof, expected: nat, now: nat)
    requires Inv(s)
    ensures Inv(SettleNonpublication(s, f, outcome, proof, expected, now).state)
  {
    hide Inv;
    if Fenced(s, f) {
      FencedIsLive(s, f);
      var replay := Prepared(s.executions[f.execution].replay, proof);
      ReplayChangeKeeps(s, f.execution, replay);
      SettleKeeps(WithReplay(s, f.execution, replay), f.execution, outcome, now);
    }
  }

  lemma RecordedKeeps(s: State, m: MonitorCall)
    requires Inv(s) && MonitorRefusal(s, m).None?
    ensures CurrentKey(s, m.execution) in s.attempts && s.attempts[CurrentKey(s, m.execution)].state.LiveAttempt?
    ensures s.executions[m.execution].lifecycle == ActiveExecution(m.ordinal)
    ensures Inv(Recorded(s, m))
  {
    hide Inv;
    CurrentIsActive(s, m.execution);
    var replay := Accumulated(s.executions[m.execution].replay, RecoveredFacts(m.stop));
    ReplayChangeKeeps(s, m.execution, replay);
    var k := CurrentKey(s, m.execution);
    LiveChangeKeeps(WithReplay(s, m.execution, replay), k, A.Record(s.attempts[k].state, m.backendDone));
  }

  // A recovery's own settlement is never refused.
  lemma RecoverySettles(s: State, m: MonitorCall)
    requires MonitorRefusal(s, m).None? && s.executions[m.execution].intents == {}
    requires CurrentKey(s, m.execution) in s.attempts && s.attempts[CurrentKey(s, m.execution)].state.LiveAttempt?
    requires A.BackendDone(s.attempts[CurrentKey(s, m.execution)].state) || m.backendDone
    ensures m.execution in Recorded(s, m).executions
    ensures SettleRefusal(Recorded(s, m), m.execution, RecoveredOutcome(m.stop)).None?
  {}

  lemma TerminalizeKeeps(s: State, m: MonitorCall, now: nat)
    requires Inv(s)
    ensures Inv(Terminalize(s, m, now).state)
  {
    hide Inv;
    if MonitorRefusal(s, m).None? {
      RecordedKeeps(s, m);
      var recorded := Recorded(s, m);
      var k := CurrentKey(s, m.execution);
      if (A.BackendDone(s.attempts[k].state) || m.backendDone) && s.executions[m.execution].intents == {} {
        RecoverySettles(s, m);
        SettleKeeps(recorded, m.execution, RecoveredOutcome(m.stop), now);
        AuditKeeps(recorded, Settle(recorded, m.execution, RecoveredOutcome(m.stop), now).state, k,
                   Terminalize(s, m, now).state.audits);
      }
    }
  }

  // An attempt that was live before is in no earlier audit.
  lemma AuditKeeps(s: State, after: State, k: Key, audits: seq<Audit>)
    requires Inv(s) && Inv(after) && after.audits == s.audits
    requires k in s.attempts && s.attempts[k].state.LiveAttempt?
    requires k in after.attempts && after.attempts[k].state.TerminalAttempt?
        && !after.attempts[k].state.outcome.Succeeded?
    requires |audits| == |s.audits| + 1 && audits[..|s.audits|] == s.audits && audits[|s.audits|].key == k
    ensures Inv(after.(audits := audits))
  {
    hide Numbered, TokensDistinct, Owned, Pointed, Phased, Claimed, Answered;
    assert forall i :: 0 <= i < |s.audits| ==> audits[i] == s.audits[i] && audits[i].key != k;
    assert Audited(after.attempts, audits);
  }

  lemma FreezeKeeps(s: State, f: Fence, target: string)
    requires Inv(s)
    ensures Inv(Freeze(s, f, target).state)
  {
    hide Numbered, TokensDistinct, Owned, Pointed, Phased, Claimed, Answered, Audited;
    if Freeze(s, f, target).answer.Applied? {
      FencedIsLive(s, f);
      RespondsAt(s, f.execution);
      var after := Freeze(s, f, target).state.executions[f.execution];
      SameKindKeeps(s.executions, s.claims, f.execution, after);
      FollowKeeps(s, f.execution, after, s.claims);
    }
  }

  lemma AcknowledgeKeeps(s: State, f: Fence, target: string, now: nat)
    requires Inv(s)
    ensures Inv(Acknowledge(s, f, target, now).state)
  {
    hide Numbered, TokensDistinct, Owned, Pointed, Phased, Claimed, Answered, Audited;
    if Acknowledge(s, f, target, now).answer.Applied? {
      FencedIsLive(s, f);
      RespondsAt(s, f.execution);
      var x := s.executions[f.execution];
      var published := WithResponse(x, target, PublishedResponse);
      if forall t :: t in published.obligations ==> published.obligations[t].PublishedResponse? {
        var completed := published.(lifecycle := CompletedExecution(Last(x.lifecycle)), revision := x.revision + 1,
                                    updatedAt := Max(now, x.updatedAt));
        EndedKeeps(s, f.execution, A.Succeeded, completed);
      } else {
        SameKindKeeps(s.executions, s.claims, f.execution, published);
        FollowKeeps(s, f.execution, published, s.claims);
      }
    }
  }

  lemma ObserveFactsKeeps(s: State, f: Fence, facts: set<Fact>)
    requires Inv(s)
    ensures Inv(ObserveFacts(s, f, facts).state)
  {
    hide Inv;
    if Fenced(s, f) {
      FencedIsLive(s, f);
      ReplayChangeKeeps(s, f.execution, Accumulated(s.executions[f.execution].replay, facts));
    }
  }

  lemma {:induction false} TargetForIsASource(sources: seq<(string, string)>, id: string)
    requires id in Members(sources)
    ensures exists j :: 0 <= j < |sources| && sources[j] == (id, TargetFor(sources, id))
    decreases |sources|
  {
    if sources[0].0 == id {
      assert sources[0] == (id, TargetFor(sources, id));
    } else {
      var i :| 0 <= i < |sources| && Members(sources)[i] == id;
      assert Members(sources[1..])[i - 1] == id;
      TargetForIsASource(sources[1..], id);
      var j :| 0 <= j < |sources[1..]| && sources[1..][j] == (id, TargetFor(sources[1..], id));
      assert sources[j + 1] == (id, TargetFor(sources, id));
    }
  }

  // A source is a free claim of the owner, and it is engaged with its own reply target.
  lemma SourceIsFree(s: State, c: Creation, id: string)
    requires CreationRefusal(s, c).None? && id in Members(c.sources)
    ensures id in s.claims && !C.Bound(s.claims[id].claim) && s.claims[id].recipient == c.owner
    ensures C.Active(C.ModeOf(s.claims[id].claim)) && TargetFor(c.sources, id) != ""
  {
    TargetForIsASource(c.sources, id);
    var j :| 0 <= j < |c.sources| && c.sources[j] == (id, TargetFor(c.sources, id));
    assert SourceEngageable(s, c, j);
  }

  lemma CreatedClaims(s: State, c: Creation, x: Execution)
    requires Claimed(s.executions, s.claims) && c.execution !in s.executions && CreationRefusal(s, c).None?
    requires x.claims == Members(c.sources) && x.owner == c.owner && x.origin == c.origin
        && x.lifecycle.QueuedExecution?
    ensures Claimed(s.executions[c.execution := x], EngagedWith(s.claims, c))
  {
    var xs, cs := s.executions[c.execution := x], EngagedWith(s.claims, c);
    forall id | id in Members(c.sources)
      ensures id in s.claims && C.WellFormed(cs[id].claim) && !C.Bound(s.claims[id].claim)
      ensures ClaimOf(xs, cs, c.execution, id)
    {
      SourceIsFree(s, c, id);
    }
    assert forall id :: id in s.claims && id !in Members(c.sources) ==> cs[id] == s.claims[id];
    forall e, id | e in xs && id in xs[e].claims
      ensures ClaimOf(xs, cs, e, id)
    {
      if e != c.execution {
        assert ClaimOf(s.executions, s.claims, e, id);
      }
    }
  }

  // A new execution row: no attempt yet, and nothing points at it.
  lemma CreatedNumbers(xs: map<string, Execution>, as_: map<Key, AttemptRow>, e: string, x: Execution)
    requires e !in xs && x.lifecycle.QueuedExecution? && Numbered(xs, as_)
    ensures Numbered(xs[e := x], as_)
  {}

  lemma CreatedPhases(xs: map<string, Execution>, as_: map<Key, AttemptRow>, e: string, x: Execution)
    requires e !in xs && x.lifecycle.QueuedExecution? && Phased(xs, as_) && forall k :: k in as_ ==> k.0 in xs
    ensures Phased(xs[e := x], as_)
  {}

  lemma CreatedPoints(os: map<string, Owner>, xs: map<string, Execution>, e: string, x: Execution)
    requires e !in xs && x.lifecycle.QueuedExecution? && Pointed(os, xs)
    ensures Pointed(os, xs[e := x])
  {}

  lemma AttemptsHaveExecutions(xs: map<string, Execution>, as_: map<Key, AttemptRow>)
    requires Numbered(xs, as_)
    ensures forall k :: k in as_ ==> k.0 in xs
  {}

  lemma CreatedAnswers(s: State, e: string, x: Execution)
    requires e !in s.executions && x.lifecycle.QueuedExecution? && x.owner in s.owners && x.createdAt <= x.updatedAt
        && Responds(x)
    requires Owned(s.owners, s.executions, s.attempts) && Answered(s.executions, s.attempts)
    ensures Owned(s.owners, s.executions[e := x], s.attempts) && Answered(s.executions[e := x], s.attempts)
  {}

  lemma CreateKeeps(s: State, c: Creation, now: nat)
    requires Inv(s)
    ensures Inv(Create(s, c, now).state)
  {
    hide Numbered, TokensDistinct, Owned, Pointed, Phased, Claimed, Answered, Audited;
    if Create(s, c, now).answer.Applied? {
      var x := Create(s, c, now).state.executions[c.execution];
      if c.origin.WireOrigin? {
        assert c.sources[0].1 in x.obligations;
      }
      CreatedClaims(s, c, x);
      CreatedNumbers(s.executions, s.attempts, c.execution, x);
      AttemptsHaveExecutions(s.executions, s.attempts);
      CreatedPhases(s.executions, s.attempts, c.execution, x);
      CreatedPoints(s.owners, s.executions, c.execution, x);
      CreatedAnswers(s, c.execution, x);
    }
  }

  lemma MarkPendingKeeps(s: State, e: string, expected: nat, now: nat)
    requires Inv(s)
    ensures Inv(MarkPending(s, e, expected, now).state)
  {
    hide Numbered, TokensDistinct, Owned, Pointed, Phased, Claimed, Answered, Audited;
    if MarkPending(s, e, expected, now).answer.Applied? {
      var after := MarkPending(s, e, expected, now).state.executions[e];
      RespondsAt(s, e);
      SameKindKeeps(s.executions, s.claims, e, after);
      FollowKeeps(s, e, after, s.claims);
    }
  }

  lemma FailUnstartedKeeps(s: State, e: string, expected: nat, now: nat)
    requires Inv(s)
    ensures Inv(FailUnstarted(s, e, expected, now).state)
  {
    hide Numbered, TokensDistinct, Owned, Pointed, Phased, Claimed, Answered, Audited;
    if FailUnstarted(s, e, expected, now).answer.Applied? {
      var after := FailUnstarted(s, e, expected, now).state.executions[e];
      RespondsAt(s, e);
      ReclaimedKeeps(s.executions, s.claims, e, after);
      FollowKeeps(s, e, after, Reclaimed(s.claims, s.executions[e].claims, C.FailedKind));
    }
  }

  // An owner's row changes beside its pointer, and its generation only while nothing runs under it.
  lemma OwnerChangeKeeps(s: State, o: string, after: Owner)
    requires Owned(s.owners, s.executions, s.attempts) && Pointed(s.owners, s.executions)
    requires o in s.owners ==> after.pointer == s.owners[o].pointer && after.generation >= s.owners[o].generation
    requires o !in s.owners ==> after.pointer.None?
    requires o in s.owners && after.generation > s.owners[o].generation ==>
               forall k :: k in s.attempts && s.attempts[k].owner == o
                           && s.attempts[k].generation == s.owners[o].generation
                           ==> !s.attempts[k].state.LiveAttempt?
    ensures Owned(s.owners[o := after], s.executions, s.attempts) && Pointed(s.owners[o := after], s.executions)
  {}

  lemma OwnersKeep(s: State, owner: string, committed: bool, expected: nat)
    requires Inv(s)
    ensures Inv(Register(s, owner, committed).state)
    ensures Inv(Commit(s, owner).state)
    ensures Inv(AdvanceGeneration(s, owner, expected).state)
  {
    hide Numbered, TokensDistinct, Owned, Pointed, Phased, Claimed, Answered, Audited;
    if owner !in s.owners {
      OwnerChangeKeeps(s, owner, Owner(committed, 1, None, 0));
    } else {
      var p := s.owners[owner];
      OwnerChangeKeeps(s, owner, p.(committed := true));
      if AdvanceGeneration(s, owner, expected).answer.Applied? {
        OwnerChangeKeeps(s, owner, p.(generation := p.generation + 1));
      }
    }
  }

  // A claim outside every execution changes without touching one.
  lemma FreeClaimKeeps(s: State, id: string, row: C.Row)
    requires Claimed(s.executions, s.claims) && C.WellFormed(row.claim) && !C.Bound(row.claim)
    requires id in s.claims ==> !C.Bound(s.claims[id].claim)
                                && row.recipient == s.claims[id].recipient && row.seqNo == s.claims[id].seqNo
    requires id !in s.claims ==> forall k :: k in s.claims ==> s.claims[k].recipient != row.recipient
                                                               || s.claims[k].seqNo != row.seqNo
    ensures Claimed(s.executions, s.claims[id := row])
  {
    forall e, c | e in s.executions && c in s.executions[e].claims
      ensures ClaimOf(s.executions, s.claims[id := row], e, c)
    {
      assert ClaimOf(s.executions, s.claims, e, c);
    }
  }

  lemma AcceptKeeps(s: State, id: string, row: C.Row)
    requires Inv(s)
    ensures Inv(AcceptClaim(s, id, row).state)
  {
    hide Numbered, TokensDistinct, Owned, Pointed, Phased, Claimed, Answered, Audited;
    if AcceptClaim(s, id, row).answer.Applied? {
      FreeClaimKeeps(s, id, row);
    }
  }

  lemma TransitionKeeps(s: State, id: string, kind: C.Kind, expected: nat)
    requires Inv(s)
    ensures Inv(TransitionClaim(s, id, kind, expected).state)
  {
    var t := TransitionClaim(s, id, kind, expected);
    if t.answer.Applied? {
      assert C.WellFormed(s.claims[id].claim);
      hide Numbered, TokensDistinct, Owned, Pointed, Phased, Claimed, Answered, Audited;
      C.PreengagementStaysUnbound(s.claims[id].claim, kind);
      C.MovedKeeps(s.claims[id].claim, C.Step(kind));
      FreeClaimKeeps(s, id, t.state.claims[id]);
    }
  }

  lemma PerformKeeps(s: State, c: Command, now: nat)
    requires Inv(s)
    ensures Inv(Perform(s, c, now).state)
  {
    hide Inv;
    match c
    case DoRegister(owner, committed) => OwnersKeep(s, owner, committed, 0);
    case DoCommit(owner) => OwnersKeep(s, owner, true, 0);
    case DoAdvanceGeneration(owner, expected) => OwnersKeep(s, owner, true, expected);
    case DoAccept(id, row) => AcceptKeeps(s, id, row);
    case DoTransition(id, kind, expected) => TransitionKeeps(s, id, kind, expected);
    case DoCreate(creation) => CreateKeeps(s, creation, now);
    case DoMarkPending(e, expected) => MarkPendingKeeps(s, e, expected, now);
    case DoFailUnstarted(e, expected) => FailUnstartedKeeps(s, e, expected, now);
    case DoStart(r) => StartKeeps(s, r, now);
    case DoAdvance(f, phase, done, dead, progress, expected) => AdvanceKeeps(s, f, phase, done, dead, progress,
        expected);
    case DoFailUnknown(f, expected) => FailUnknownKeeps(s, f, expected, now);
    case DoSettle(f, outcome, proof, expected) => SettleNonpublicationKeeps(s, f, outcome, proof, expected, now);
    case DoTerminalize(call) => TerminalizeKeeps(s, call, now);
    case DoFreeze(f, target) => FreezeKeeps(s, f, target);
    case DoAcknowledge(f, target) => AcknowledgeKeeps(s, f, target, now);
    case DoObserve(f, facts) => ObserveFactsKeeps(s, f, facts);
  }

  // The invariant holds after every run of commands.
  lemma {:induction false} EveryRunKeeps(s: State, commands: seq<(Command, nat)>)
    requires Inv(s)
    ensures Inv(Run(s, commands))
  {
    hide Inv;
    if commands != [] {
      EveryRunKeeps(s, commands[..|commands| - 1]);
      var last := commands[|commands| - 1];
      PerformKeeps(Run(s, commands[..|commands| - 1]), last.0, last.1);
    }
  }
}
