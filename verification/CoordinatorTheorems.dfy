/** The coordinator's promises over every run of its commands. */
module CoordinatorTheorems {
  import opened Options
  import opened Coordinators
  import opened CoordinatorInvariant
  import opened CoordinatorHistory
  import A = Attempts
  import C = Claims

  // ---- Attempts of every reachable state ---------------------------------------------------------

  // The attempts of `e` are exactly 1..n within its budget, and every one but the latest ended known
  // failed under an older owner generation than its successor.
  ghost predicate Contiguous(s: State, e: string, n: nat)
    requires e in s.executions
  {
    && n <= s.executions[e].maxAttempts
    && (forall i: nat :: (e, i) in s.attempts <==> 1 <= i <= n)
    && (forall i: nat :: 1 <= i < n && (e, i) in s.attempts
         ==> s.attempts[(e, i)].state == A.TerminalAttempt(A.AttemptFailed))
    && (forall i: nat :: (e, i) in s.attempts && (e, i + 1) in s.attempts
                         ==> s.attempts[(e, i)].generation < s.attempts[(e, i + 1)].generation)
  }

  lemma SoundIsContiguous(s: State, e: string)
    requires Inv(s) && e in s.executions
    ensures Contiguous(s, e, Last(s.executions[e].lifecycle))
  {
    hide Inv, Last;
    LastIsLast(s, e);
    WithinBudget(s, e);
    EarlierAttempts(s, e);
  }

  lemma WithinBudget(s: State, e: string)
    requires Inv(s) && e in s.executions
    ensures Last(s.executions[e].lifecycle) <= s.executions[e].maxAttempts
  {
    hide TokensDistinct, Owned, Pointed, Phased, Claimed, Answered, Audited;
  }

  lemma EarlierAttempts(s: State, e: string)
    requires Inv(s) && e in s.executions
    ensures forall i: nat :: i < Last(s.executions[e].lifecycle) && (e, i) in s.attempts
                             ==> s.attempts[(e, i)].state == A.TerminalAttempt(A.AttemptFailed)
    ensures forall i: nat :: (e, i) in s.attempts && (e, i + 1) in s.attempts
                             ==> s.attempts[(e, i)].generation < s.attempts[(e, i + 1)].generation
  {
    hide Numbered, TokensDistinct, Owned, Pointed, Claimed, Answered, Audited, Last, Fits;
    assert Phased(s.executions, s.attempts);
    forall i: nat | i < Last(s.executions[e].lifecycle) && (e, i) in s.attempts
      ensures s.attempts[(e, i)].state == A.TerminalAttempt(A.AttemptFailed)
    {
      var k: Key := (e, i);
      assert k in s.attempts && k.0 in s.executions;
    }
    forall i: nat | (e, i) in s.attempts && (e, i + 1) in s.attempts
      ensures s.attempts[(e, i)].generation < s.attempts[(e, i + 1)].generation
    {
      var k: Key := (e, i);
      assert (k.0, k.1 + 1) in s.attempts;
    }
  }

  // From the empty coordinator, whatever is asked of it.
  lemma AttemptsAreContiguous(commands: seq<(Command, nat)>, e: string)
    requires e in Run(EMPTY, commands).executions
    ensures exists n: nat :: Contiguous(Run(EMPTY, commands), e, n)
  {
    hide Inv, Contiguous;
    EmptyHolds();
    EveryRunKeeps(EMPTY, commands);
    SoundIsContiguous(Run(EMPTY, commands), e);
  }

  // No token names two attempts, and an owner points at exactly the one attempt it has live.
  lemma TokensAndPointersAreUnique(commands: seq<(Command, nat)>)
    ensures var s := Run(EMPTY, commands);
            && (forall k, j :: k in s.attempts && j in s.attempts && s.attempts[k].digest == s.attempts[j].digest
                 ==> k == j)
            && (forall k :: k in s.attempts && s.attempts[k].state.LiveAttempt? ==>
                              && s.attempts[k].owner in s.owners
                              && s.owners[s.attempts[k].owner].pointer == Some(k)
                              && s.owners[s.attempts[k].owner].generation == s.attempts[k].generation)
            && (forall o :: o in s.owners && s.owners[o].pointer.Some? ==>
                              && s.owners[o].pointer.value in s.attempts
                              && s.attempts[s.owners[o].pointer.value].owner == o
                              && s.attempts[s.owners[o].pointer.value].state.LiveAttempt?)
  {
    hide Inv;
    EmptyHolds();
    EveryRunKeeps(EMPTY, commands);
    LiveIsPointed(Run(EMPTY, commands));
  }

  lemma LiveIsPointed(s: State)
    requires Inv(s)
    ensures TokensDistinct(s.attempts)
    ensures forall k :: k in s.attempts && s.attempts[k].state.LiveAttempt? ==>
                          && s.attempts[k].owner in s.owners
                          && s.owners[s.attempts[k].owner].pointer == Some(k)
                          && s.owners[s.attempts[k].owner].generation == s.attempts[k].generation
    ensures forall o :: o in s.owners && s.owners[o].pointer.Some? ==>
                          && s.owners[o].pointer.value in s.attempts
                          && s.attempts[s.owners[o].pointer.value].owner == o
                          && s.attempts[s.owners[o].pointer.value].state.LiveAttempt?
  {
    hide TokensDistinct, Claimed, Answered, Audited;
    forall k | k in s.attempts && s.attempts[k].state.LiveAttempt?
      ensures s.executions[k.0].lifecycle == ActiveExecution(k.1)
    {
      assert k.1 == Last(s.executions[k.0].lifecycle);
    }
    forall o | o in s.owners && s.owners[o].pointer.Some?
      ensures s.owners[o].pointer.value in s.attempts && s.attempts[s.owners[o].pointer.value].owner == o
      ensures s.attempts[s.owners[o].pointer.value].state.LiveAttempt?
    {
      var k := s.owners[o].pointer.value;
      assert (k.0, k.1) == k;
    }
  }

  // ---- A start is replayed, never repeated ----------------------------------------------------------

  // The attempt a token was issued for is the only one a start can find.
  lemma IssuedOnce(s: State, e: string, digest: string, k: Key)
    requires TokensDistinct(s.attempts) && IssuedFor(s, e, digest, k)
    ensures forall j :: IssuedFor(s, e, digest, j) ==> j == k
  {}

  // Once a request started its attempt, repeating it at any later time returns that same attempt with
  // its current revision, and changes nothing, whatever has happened to the attempt meanwhile.
  lemma StartIsReplayedForEver(s: State, r: AttemptStart, now: nat, commands: seq<(Command, nat)>, later: nat)
    requires Inv(s) && Start(s, r, now).answer.Started?
    ensures var t := Run(Start(s, r, now).state, commands);
            && (r.execution, r.ordinal) in t.attempts
            && Start(t, r, later) == Outcome(t, Replayed(FenceFor(r, t.attempts[(r.execution, r.ordinal)].revision)))
  {
    hide Inv, Extends, TokensDistinct;
    StartedRow(s, r, now);
    StartKeeps(s, r, now);
    var t0 := Start(s, r, now).state;
    EveryRunExtends(t0, commands);
    var t := Run(t0, commands);
    RowSurvives(t0, t, (r.execution, r.ordinal));
    RowIsOwned(t, (r.execution, r.ordinal));
    ReplayedStart(t, r, later);
  }

  lemma ReplayedStart(t: State, r: AttemptStart, later: nat)
    requires r.execution in t.executions && t.executions[r.execution].owner in t.owners && TokensDistinct(t.attempts)
    requires (r.execution, r.ordinal) in t.attempts
    requires var row := t.attempts[(r.execution, r.ordinal)];
             && row.owner == r.owner && row.generation == r.generation && row.digest == r.digest
             && row.createdAt >= t.executions[r.execution].createdAt
    ensures Start(t, r, later) == Outcome(t, Replayed(FenceFor(r, t.attempts[(r.execution, r.ordinal)].revision)))
  {
    hide TokensDistinct;
    var k := (r.execution, r.ordinal);
    assert IssuedFor(t, r.execution, r.digest, k);
    IssuedOnce(t, r.execution, r.digest, k);
  }

  lemma StartedRow(s: State, r: AttemptStart, now: nat)
    requires Inv(s) && Start(s, r, now).answer.Started?
    ensures var t := Start(s, r, now).state; var k := (r.execution, r.ordinal);
            && k in t.attempts
            && t.attempts[k].owner == r.owner && t.attempts[k].generation == r.generation
                 && t.attempts[k].digest == r.digest
  {
    hide Inv;
  }

  lemma RowSurvives(s: State, t: State, k: Key)
    requires Extends(s, t) && k in s.attempts
    ensures k in t.attempts && RowGrows(s.attempts[k], t.attempts[k])
  {
    hide ExecutionsGrow, OwnersGrow, ClaimsGrow;
  }

  lemma RowIsOwned(s: State, k: Key)
    requires Inv(s) && k in s.attempts
    ensures k.0 in s.executions && s.executions[k.0].owner in s.owners
    ensures s.attempts[k].createdAt >= s.executions[k.0].createdAt
    ensures TokensDistinct(s.attempts)
  {
    hide Numbered, TokensDistinct, Pointed, Phased, Claimed, Answered, Audited;
  }

  // A token is bound to the attempt it started: any other use of it is refused and changes nothing.
  lemma TokenNamesOneAttempt(s: State, r: AttemptStart, k: Key, now: nat)
    requires Inv(s) && k in s.attempts && s.attempts[k].digest == r.digest
    requires k != (r.execution, r.ordinal) || s.attempts[k].owner != r.owner || s.attempts[k].generation != r.generation
    ensures Start(s, r, now).state == s && Start(s, r, now).answer.Refused?
  {
    hide Inv;
    RowIsOwned(s, k);
    if r.execution in s.executions && s.executions[r.execution].owner in s.owners {
      if j :| IssuedFor(s, r.execution, r.digest, j) {
        IssuedOnce(s, r.execution, r.digest, j);
      }
    }
  }

  // ---- An unknown outcome is never replayed ------------------------------------------------------------

  // Failing a live attempt as unknown is refused only by a stale fence, a stale pointer or a frozen
  // publication, never by the finality rule; it always fails the execution.
  lemma UnknownAlwaysFails(s: State, f: Fence, expected: nat, now: nat)
    requires Inv(s)
    ensures var o := FailUnknown(s, f, expected, now);
            && (o.answer.Applied? <==> Fenced(s, f) && PointerRevision(s, f.execution) == expected
                                       && s.executions[f.execution].intents == {})
            && (o.answer.Applied? ==>
                  && f.execution in o.state.executions
                  && o.state.executions[f.execution].lifecycle == FailedExecution(Some(f.ordinal))
                  && (f.execution, f.ordinal) in o.state.attempts
                  && o.state.attempts[(f.execution, f.ordinal)].state == A.TerminalAttempt(A.UnknownOutcome)
                  && !AllowsRetry(o.state.executions[f.execution].replay)
                  && f.owner in o.state.owners && o.state.owners[f.owner].pointer.None?)
            && (!o.answer.Applied? ==> o.answer.Refused? && o.state == s)
  {
    hide Inv;
    if Fenced(s, f) {
      FencedIsLive(s, f);
      RowIsOwned(s, (f.execution, f.ordinal));
      OwnerOfRow(s, (f.execution, f.ordinal));
      var a := s.attempts[(f.execution, f.ordinal)].state;
      if !A.Final(a) {
        A.FinalObservationIsAccepted(a);
      }
    }
  }

  lemma OwnerOfRow(s: State, k: Key)
    requires Inv(s) && k in s.attempts
    ensures k.0 in s.executions && s.attempts[k].owner == s.executions[k.0].owner
  {
    hide Numbered, TokensDistinct, Pointed, Phased, Claimed, Answered, Audited;
  }

  // A finished execution keeps its lifecycle and its attempts in every later run, and starts nothing.
  lemma FinishedStaysFinished(s: State, e: string, commands: seq<(Command, nat)>, r: AttemptStart, now: nat)
    requires Inv(s) && e in s.executions && TerminalExecution(s.executions[e].lifecycle)
    ensures var t := Run(s, commands);
            && e in t.executions && t.executions[e].lifecycle == s.executions[e].lifecycle
            && (forall n: nat :: (e, n) in t.attempts <==> (e, n) in s.attempts)
            && (forall n: nat :: (e, n) in s.attempts ==> t.attempts[(e, n)] == s.attempts[(e, n)])
            && (r.execution == e ==> !Start(t, r, now).answer.Started?)
  {
    hide Inv, Extends;
    EveryRunExtends(s, commands);
    SameAttempts(s, Run(s, commands), e);
  }

  lemma SameAttempts(s: State, t: State, e: string)
    requires Inv(s) && Inv(t) && Extends(s, t) && e in s.executions && TerminalExecution(s.executions[e].lifecycle)
    ensures e in t.executions && t.executions[e].lifecycle == s.executions[e].lifecycle
    ensures forall n: nat :: (e, n) in t.attempts <==> (e, n) in s.attempts
    ensures forall n: nat :: (e, n) in s.attempts ==> t.attempts[(e, n)] == s.attempts[(e, n)]
  {
    hide Inv, Extends;
    TerminalRows(s, e);
    LastIsLast(s, e);
    ExecutionSurvives(s, t, e);
    LastIsLast(t, e);
    forall n: nat | (e, n) in s.attempts ensures t.attempts[(e, n)] == s.attempts[(e, n)] {
      RowSurvives(s, t, (e, n));
    }
  }

  lemma ExecutionSurvives(s: State, t: State, e: string)
    requires Extends(s, t) && e in s.executions
    ensures e in t.executions && ExecutionGrows(s.executions[e], t.executions[e])
  {
    hide AttemptsGrow, OwnersGrow, ClaimsGrow;
  }

  // Every attempt of a finished execution has ended.
  lemma TerminalRows(s: State, e: string)
    requires Inv(s) && e in s.executions && TerminalExecution(s.executions[e].lifecycle)
    ensures forall n: nat :: (e, n) in s.attempts ==> s.attempts[(e, n)].state.TerminalAttempt?
  {
    hide TokensDistinct, Owned, Pointed, Claimed, Answered, Audited;
    forall n: nat | (e, n) in s.attempts ensures s.attempts[(e, n)].state.TerminalAttempt? {
      if n == Last(s.executions[e].lifecycle) {
        assert Fits(s.executions[e].lifecycle, s.attempts[(e, n)].state);
      }
    }
  }

  // After an unknown outcome no later command starts another attempt of the execution.
  lemma UnknownIsNeverReplayed(s: State, f: Fence, expected: nat, now: nat, commands: seq<(Command, nat)>,
                               r: AttemptStart, later: nat)
    requires Inv(s) && FailUnknown(s, f, expected, now).answer.Applied? && r.execution == f.execution
    ensures var t := Run(FailUnknown(s, f, expected, now).state, commands);
            && f.execution in t.executions && t.executions[f.execution].lifecycle == FailedExecution(Some(f.ordinal))
            && (forall n: nat :: n > f.ordinal ==> (f.execution, n) !in t.attempts)
            && !Start(t, r, later).answer.Started?
  {
    hide Inv;
    UnknownAlwaysFails(s, f, expected, now);
    FailUnknownKeeps(s, f, expected, now);
    var t0 := FailUnknown(s, f, expected, now).state;
    FinishedStaysFinished(t0, f.execution, commands, r, later);
    LastIsLast(t0, f.execution);
  }

  lemma LastIsLast(s: State, e: string)
    requires Inv(s) && e in s.executions
    ensures forall n: nat :: (e, n) in s.attempts <==> 1 <= n <= Last(s.executions[e].lifecycle)
  {
    hide TokensDistinct, Owned, Pointed, Phased, Claimed, Answered, Audited;
  }

  // ---- A retry -----------------------------------------------------------------------------------------

  // A settlement defers exactly a known failure with retry authority.
  lemma OnlyAuthorizedFailureDefers(s: State, e: string, outcome: A.Outcome, now: nat)
    requires Inv(s) && e in s.executions && SettleRefusal(s, e, outcome).None? && s.executions[e].owner in s.owners
    ensures Settle(s, e, outcome, now).state.executions[e].lifecycle.DeferredExecution?
            <==> outcome.AttemptFailed? && RetryAuthorized(s.executions[e])
  {
    hide Inv;
    CurrentIsActive(s, e);
  }

  // Deferring an execution and starting its next attempt gives every claim back its own mode and
  // binding, two revisions later, and every response its pending state.
  lemma RetryRestoresClaimsAndResponses(s: State, e: string, now: nat, t: State, r: AttemptStart, later: nat, u: State)
    requires Inv(s) && e in s.executions && s.executions[e].owner in s.owners && r.execution == e
    requires Settle(s, e, A.AttemptFailed, now) == Outcome(t, Applied)
    requires e in t.executions && t.executions[e].lifecycle.DeferredExecution?
    requires Start(t, r, later) == Outcome(u, Started(FenceFor(r, 1)))
    ensures e in u.executions
    ensures forall id :: id in s.executions[e].claims ==>
                           id in s.claims && id in u.claims && u.claims[id]
                               == s.claims[id].(revision := s.claims[id].revision + 2)
    ensures forall id :: id in s.claims && id !in s.executions[e].claims ==> id in u.claims
                                                                             && u.claims[id] == s.claims[id]
    ensures u.executions[e].obligations == s.executions[e].obligations
    ensures u.executions[e].lifecycle == ActiveExecution(Last(s.executions[e].lifecycle) + 1)
  {
    hide Inv, Start, SettleRefusal;
    SettledWasCurrent(s, e, now);
    StartIsActivation(t, r, later);
    RespondsAt(s, e);
    ActiveClaims(s, e);
    var x := s.executions[e];
    assert t.executions[e] == SettledExecution(x, A.AttemptFailed, now);
    assert t.claims == Reclaimed(s.claims, x.claims, C.DeferredKind);
    ReclaimedTwice(s.claims, x.claims);
    assert u.executions[e].obligations == Resumed(All(x.obligations, DeferredResponse)) == x.obligations;
  }

  lemma SettledWasCurrent(s: State, e: string, now: nat)
    requires Inv(s) && e in s.executions && s.executions[e].owner in s.owners
        && Settle(s, e, A.AttemptFailed, now).answer.Applied?
    ensures s.executions[e].lifecycle.ActiveExecution? && s.executions[e].intents == {}
        && CurrentKey(s, e) in s.attempts
  {
    hide Inv;
    CurrentIsActive(s, e);
  }

  lemma StartIsActivation(t: State, r: AttemptStart, later: nat)
    requires Start(t, r, later).answer.Started?
    ensures r.execution in t.executions && t.executions[r.execution].owner in t.owners
    ensures Start(t, r, later).state == Activated(t, r, later)
    ensures r.ordinal == Last(t.executions[r.execution].lifecycle) + 1
  {}

  lemma ReclaimedTwice(claims: C.Table, members: seq<string>)
    requires forall id :: id in members ==> id in claims && claims[id].claim.Engaged? && C.WellFormed(claims[id].claim)
    ensures var twice := Reclaimed(Reclaimed(claims, members, C.DeferredKind), members, C.EngagedKind);
            && (forall id :: id in members ==> id in twice
                                               && twice[id] == claims[id].(revision := claims[id].revision + 2))
            && (forall id :: id in claims && id !in members ==> id in twice && twice[id] == claims[id])
  {
    forall id | id in members
      ensures ReclaimedRow(ReclaimedRow(claims[id], C.DeferredKind), C.EngagedKind)
          == claims[id].(revision := claims[id].revision + 2)
    {
      ReclaimedRowKeeps(claims[id], C.DeferredKind);
      ReclaimedRowKeeps(ReclaimedRow(claims[id], C.DeferredKind), C.EngagedKind);
    }
  }

  lemma ActiveClaims(s: State, e: string)
    requires Inv(s) && e in s.executions && s.executions[e].lifecycle.ActiveExecution?
    ensures forall id :: id in s.executions[e].claims ==>
                           id in s.claims && s.claims[id].claim.Engaged? && C.WellFormed(s.claims[id].claim)
  {
    hide Numbered, TokensDistinct, Owned, Pointed, Phased, Answered, Audited;
    forall id | id in s.executions[e].claims ensures id in s.claims && s.claims[id].claim.Engaged? {
      assert ClaimOf(s.executions, s.claims, e, id);
    }
  }

  // ---- The recovery monitor --------------------------------------------------------------------------------

  predicate BackendFinal(s: State, m: MonitorCall)
    requires m.execution in s.executions && CurrentKey(s, m.execution) in s.attempts
  {
    A.BackendDone(s.attempts[CurrentKey(s, m.execution)].state) || m.backendDone
  }

  // A call that names the current attempt commits the death it saw, and any completion, even when it
  // then raises; the execution and the pointer change exactly when the backend is final and no
  // publication is frozen, and exactly then the attempt is audited.
  lemma MonitorCommitsWhatItSaw(s: State, m: MonitorCall, now: nat)
    requires Inv(s) && MonitorRefusal(s, m).None?
    ensures CurrentKey(s, m.execution) in s.attempts
    ensures var o := Terminalize(s, m, now); var k := (m.execution, m.ordinal);
            var settles := BackendFinal(s, m) && s.executions[m.execution].intents == {};
            && k in o.state.attempts && A.ProcessDead(o.state.attempts[k].state)
            && (BackendFinal(s, m) ==> A.BackendDone(o.state.attempts[k].state))
            && o.state.attempts[k].revision > m.attemptRevision
            && (o.answer.Applied? <==> settles)
            && (o.state.attempts[k].state.TerminalAttempt? <==> settles)
            && (!settles ==> && o.answer == Refused(if BackendFinal(s, m) then PublicationUncertain
                 else RecoveryBlocked)
                             && o.state.executions[m.execution].lifecycle == s.executions[m.execution].lifecycle
                             && o.state.owners == s.owners && o.state.claims == s.claims && o.state.audits == s.audits)
            && (settles ==> && TerminalOrDeferred(o.state.executions[m.execution].lifecycle)
                            && o.state.owners[s.executions[m.execution].owner].pointer.None?
                            && o.state.audits == s.audits + [Audit(k,
                                 o.state.executions[m.execution].lifecycle.DeferredExecution?)])
  {
    hide Inv;
    RecordedKeeps(s, m);
    if BackendFinal(s, m) && s.executions[m.execution].intents == {} {
      RecoverySettles(s, m);
      CurrentIsActive(s, m.execution);
    }
  }

  predicate TerminalOrDeferred(l: Lifecycle) {
    l.FailedExecution? || l.DeferredExecution?
  }

  // The same call, or any call with revisions that old, never takes effect again.
  lemma MonitorActsOnce(s: State, m: MonitorCall, now: nat, commands: seq<(Command, nat)>, again: MonitorCall,
                        later: nat)
    requires Inv(s) && MonitorRefusal(s, m).None?
    requires (again.execution, again.ordinal) == (m.execution, m.ordinal) && again.attemptRevision <= m.attemptRevision
    ensures var t := Run(Terminalize(s, m, now).state, commands);
            Terminalize(t, again, later).state == t && Terminalize(t, again, later).answer.Refused?
  {
    hide Inv, Extends;
    MonitorCommitsWhatItSaw(s, m, now);
    TerminalizeKeeps(s, m, now);
    var t0 := Terminalize(s, m, now).state;
    EveryRunExtends(t0, commands);
    RowSurvives(t0, Run(t0, commands), (m.execution, m.ordinal));
  }

  // No attempt is audited twice in any run, and only unsuccessful ones are audited.
  lemma AuditedAtMostOnce(commands: seq<(Command, nat)>)
    ensures var s := Run(EMPTY, commands);
            && (forall i, j :: 0 <= i < j < |s.audits| ==> s.audits[i].key != s.audits[j].key)
            && (forall i :: 0 <= i < |s.audits| ==>
                              && s.audits[i].key in s.attempts
                              && s.attempts[s.audits[i].key].state.TerminalAttempt?
                              && !s.attempts[s.audits[i].key].state.outcome.Succeeded?)
  {
    hide Numbered, TokensDistinct, Owned, Pointed, Phased, Claimed, Answered;
    EmptyHolds();
    EveryRunKeeps(EMPTY, commands);
  }

  // ---- Completion -----------------------------------------------------------------------------------------

  // A wire execution completes only with every reply published, and a completed execution's attempt
  // succeeded; a deferred one still has budget and replay authority.
  lemma CompletionIsPublished(commands: seq<(Command, nat)>, e: string)
    requires e in Run(EMPTY, commands).executions
    ensures var s := Run(EMPTY, commands); var x := s.executions[e];
            && (x.lifecycle.CompletedExecution? ==>
                  && (forall t :: t in x.obligations ==> x.obligations[t].PublishedResponse?)
                  && (e, x.lifecycle.ordinal) in s.attempts
                  && s.attempts[(e, x.lifecycle.ordinal)].state == A.TerminalAttempt(A.Succeeded))
            && (x.lifecycle.DeferredExecution? ==> RetryAuthorized(x))
            && (x.origin.WireOrigin? ==> x.obligations.Keys != {})
  {
    hide Inv;
    EmptyHolds();
    EveryRunKeeps(EMPTY, commands);
    var s := Run(EMPTY, commands);
    RespondsAt(s, e);
    LastIsLast(s, e);
    LatestFits(s, e);
  }

  lemma LatestFits(s: State, e: string)
    requires Inv(s) && e in s.executions
    ensures (e, Last(s.executions[e].lifecycle)) in s.attempts
        ==> Fits(s.executions[e].lifecycle, s.attempts[(e, Last(s.executions[e].lifecycle))].state)
    ensures s.executions[e].lifecycle.CompletedExecution? || s.executions[e].lifecycle.DeferredExecution?
            ==> Last(s.executions[e].lifecycle) >= 1
  {
    hide TokensDistinct, Owned, Pointed, Claimed, Answered, Audited;
  }
}
