/** What a run of the coordinator made of each attempt: its row is, command by command, what the
    observations and recorded deaths that very run accepted for it make of a started attempt, until a
    settlement its last live state allows. What is proved of one attempt's observations therefore holds of
    every attempt of every run.
 */
module AttemptHistories {
  import opened Options
  import opened Coordinators
  import opened CoordinatorInvariant
  import A = Attempts

  // ---- The history a run gives an attempt ------------------------------------------------------------

  // What one command, answered as it was, recorded of attempt `k`.
  ghost function EventsOf(s: State, c: Command, now: nat, k: Key): seq<A.Event> {
    var answer := Perform(s, c, now).answer;
    match c
    case DoAdvance(f, phase, done, dead, progress, _) =>
      if answer.Started? && k == (f.execution, f.ordinal) then [A.Observation(phase, done, dead, progress)] else []
    case DoFailUnknown(f, _) =>
      if answer.Applied? && k == (f.execution, f.ordinal) && k in s.attempts && !A.Final(s.attempts[k].state)
      then [A.Observation(A.PhaseOf(s.attempts[k].state), true, true, false)] else []
    case DoTerminalize(call) =>
      if MonitorRefusal(s, call).None? && k == (call.execution, call.ordinal) then [A.Monitor(call.backendDone)] else []
    case _ => []
  }

  ghost function StateAt(commands: seq<(Command, nat)>, n: nat): State
    requires n <= |commands|
  {
    Run(EMPTY, commands[..n])
  }

  // Everything the first `n` commands recorded of attempt `k`, in order.
  ghost function History(commands: seq<(Command, nat)>, n: nat, k: Key): seq<A.Event>
    requires n <= |commands|
  {
    if n == 0 then []
    else History(commands, n - 1, k) + EventsOf(StateAt(commands, n - 1), commands[n - 1].0, commands[n - 1].1, k)
  }

  // An attempt starts with the lease its creation gives it.
  function StartOf(row: AttemptRow): A.Attempt {
    A.Started(row.createdAt + INITIAL_LEASE_DURATION_MS)
  }

  predicate NewRow(row: AttemptRow) {
    row.state == StartOf(row) && row.revision == 1
  }

  // ---- One command on one attempt ----------------------------------------------------------------------

  predicate Recordable(a: A.Attempt, e: A.Event) {
    a.LiveAttempt? && (e.Monitor? || A.Accepted(a, e))
  }

  function Live(row: AttemptRow, events: seq<A.Event>): A.Attempt
    requires |events| <= 1
  {
    if events == [] then row.state else A.Step(row.state, events[0])
  }

  // The row takes the recorded event, if any, and then may settle; a success records nothing on the way.
  predicate RowMoves(row: AttemptRow, after: AttemptRow, events: seq<A.Event>) {
    && |events| <= 1
    && (events != [] ==> Recordable(row.state, events[0]))
    && after == row.(state := after.state, revision := after.revision)
    && (|| (after.state == Live(row, events) && after.revision == row.revision + |events|)
        || (&& after.state.TerminalAttempt?
            && A.MaySettle(Live(row, events), after.state.outcome)
            && (after.state.outcome.Succeeded? ==> events == [])
            && after.revision == row.revision + |events| + 1))
  }

  ghost predicate Moves(as_: map<Key, AttemptRow>, as': map<Key, AttemptRow>, k: Key, events: seq<A.Event>) {
    if k in as_ then k in as' && RowMoves(as_[k], as'[k], events)
    else events == [] && (k in as' ==> NewRow(as'[k]))
  }

  lemma SameMoves(as_: map<Key, AttemptRow>, k: Key)
    ensures Moves(as_, as_, k, [])
  {}

  // A settlement that is not refused ends an attempt that may settle so.
  lemma SettleMoves(s: State, e: string, outcome: A.Outcome, now: nat, k: Key)
    requires Inv(s) && e in s.executions && s.executions[e].owner in s.owners
    ensures Moves(s.attempts, Settle(s, e, outcome, now).state.attempts, k, [])
    ensures Settle(s, e, outcome, now).answer.Applied? <==> SettleRefusal(s, e, outcome).None?
  {
    hide Inv;
    if SettleRefusal(s, e, outcome).None? {
      CurrentIsActive(s, e);
      assert A.MaySettle(s.attempts[CurrentKey(s, e)].state, outcome);
    }
  }

  // A recorded event followed by a settlement that does not succeed.
  lemma ThenSettles(row: AttemptRow, middle: AttemptRow, after: AttemptRow, e: A.Event)
    requires RowMoves(row, middle, [e]) && middle.state.LiveAttempt? && RowMoves(middle, after, [])
    requires after.state != A.TerminalAttempt(A.Succeeded)
    ensures RowMoves(row, after, [e])
  {
    A.StepKeeps(row.state, e);
  }

  // An accepted observation moves its row by itself.
  lemma ObservedMoves(row: AttemptRow, phase: A.Phase, done: bool, dead: bool, progress: bool)
    requires row.state.LiveAttempt? && A.Observe(row.state, phase, done, dead, progress).Observed?
    ensures var after := A.Observe(row.state, phase, done, dead, progress).attempt;
            RowMoves(row, row.(state := after, revision := row.revision + 1),
                [A.Observation(phase, done, dead, progress)])
  {}

  lemma AdvanceMoves(s: State, f: Fence, phase: A.Phase, done: bool, dead: bool, progress: bool, expected: nat,
                     now: nat, k: Key)
    requires Inv(s)
    ensures var c := DoAdvance(f, phase, done, dead, progress, expected);
            Moves(s.attempts, Perform(s, c, now).state.attempts, k, EventsOf(s, c, now, k))
  {
    hide Inv, A.Observe, RowMoves, Advance;
    SameMoves(s.attempts, k);
    AdvanceObserves(s, f, phase, done, dead, progress, expected);
    if Advance(s, f, phase, done, dead, progress, expected).answer.Started? {
      ObservedMoves(s.attempts[(f.execution, f.ordinal)], phase, done, dead, progress);
    }
  }

  lemma AdvanceObserves(s: State, f: Fence, phase: A.Phase, done: bool, dead: bool, progress: bool, expected: nat)
    requires Inv(s)
    ensures var o, k := Advance(s, f, phase, done, dead, progress, expected), (f.execution, f.ordinal);
            if o.answer.Started?
            then && k in s.attempts && s.attempts[k].state.LiveAttempt?
                 && A.Observe(s.attempts[k].state, phase, done, dead, progress).Observed?
                 && Changes(s.attempts, o.state.attempts, k,
                      A.Observe(s.attempts[k].state, phase, done, dead, progress).attempt)
            else o.state == s
  {
    hide Inv, A.Observe;
    if Fenced(s, f) {
      FencedIsLive(s, f);
    }
  }

  lemma FailUnknownMoves(s: State, f: Fence, expected: nat, now: nat, k: Key)
    requires Inv(s)
    ensures var c := DoFailUnknown(f, expected);
            Moves(s.attempts, Perform(s, c, now).state.attempts, k, EventsOf(s, c, now, k))
  {
    hide Inv;
    var o := FailUnknown(s, f, expected, now);
    SameMoves(s.attempts, k);
    if o.answer.Applied? {
      FencedIsLive(s, f);
      var current := CurrentKey(s, f.execution);
      var a := s.attempts[current].state;
      if A.Final(a) {
        SettleMoves(s, f.execution, A.UnknownOutcome, now, k);
      } else {
        A.FinalObservationIsAccepted(a);
        var b := a.(backendDone := true, processDead := true);
        LiveChangeKeeps(s, current, b);
        var middle := WithAttempt(s, current, b);
        SettleMoves(middle, f.execution, A.UnknownOutcome, now, k);
        assert o.state == Settle(middle, f.execution, A.UnknownOutcome, now).state;
        if k == current {
          ThenSettles(s.attempts[k], middle.attempts[k], o.state.attempts[k],
              A.Observation(A.PhaseOf(a), true, true, false));
        }
      }
    }
  }

  lemma SettleNonpublicationMoves(s: State, f: Fence, outcome: A.Outcome, proof: RetryProof, expected: nat, now: nat,
                                  k: Key)
    requires Inv(s)
    ensures Moves(s.attempts, SettleNonpublication(s, f, outcome, proof, expected, now).state.attempts, k, [])
  {
    hide Inv;
    SameMoves(s.attempts, k);
    if Fenced(s, f) {
      FencedIsLive(s, f);
      var replay := Prepared(s.executions[f.execution].replay, proof);
      ReplayChangeKeeps(s, f.execution, replay);
      SettleMoves(WithReplay(s, f.execution, replay), f.execution, outcome, now, k);
    }
  }

  lemma TerminalizeMoves(s: State, m: MonitorCall, now: nat, k: Key)
    requires Inv(s)
    ensures var c := DoTerminalize(m);
            Moves(s.attempts, Perform(s, c, now).state.attempts, k, EventsOf(s, c, now, k))
  {
    hide Inv, SettleRefusal;
    SameMoves(s.attempts, k);
    if MonitorRefusal(s, m).None? {
      RecordedKeeps(s, m);
      var current := CurrentKey(s, m.execution);
      var recorded := Recorded(s, m);
      if (A.BackendDone(s.attempts[current].state) || m.backendDone) && s.executions[m.execution].intents == {} {
        RecoverySettles(s, m);
        SettleMoves(recorded, m.execution, RecoveredOutcome(m.stop), now, k);
        if k == current {
          ThenSettles(s.attempts[k], recorded.attempts[k], Terminalize(s, m, now).state.attempts[k],
              A.Monitor(m.backendDone));
        }
      }
    }
  }

  lemma AcknowledgeMoves(s: State, f: Fence, target: string, now: nat, k: Key)
    requires Inv(s)
    ensures Moves(s.attempts, Acknowledge(s, f, target, now).state.attempts, k, [])
  {
    hide Inv;
    SameMoves(s.attempts, k);
    if Acknowledge(s, f, target, now).answer.Applied? {
      FencedIsLive(s, f);
    }
  }

  // A start writes a new row and leaves every other.
  lemma StartMoves(s: State, r: AttemptStart, now: nat, k: Key)
    requires Inv(s)
    ensures Moves(s.attempts, Start(s, r, now).state.attempts, k, [])
  {
    hide TokensDistinct, Owned, Pointed, Phased, Claimed, Answered, Audited;
    SameMoves(s.attempts, k);
    if Start(s, r, now).answer.Started? {
      assert r.ordinal == Last(s.executions[r.execution].lifecycle) + 1;
      assert (r.execution, r.ordinal) !in s.attempts;
    }
  }

  // Whatever the command, an attempt takes the event it recorded and no other change but a settlement.
  lemma PerformMoves(s: State, c: Command, now: nat, k: Key)
    requires Inv(s)
    ensures Moves(s.attempts, Perform(s, c, now).state.attempts, k, EventsOf(s, c, now, k))
  {
    hide Inv, Moves;
    match c
    case DoStart(r) => StartMoves(s, r, now, k);
    case DoAdvance(f, phase, done, dead, progress, expected) => AdvanceMoves(s, f, phase, done, dead, progress,
        expected, now, k);
    case DoFailUnknown(f, expected) => FailUnknownMoves(s, f, expected, now, k);
    case DoSettle(f, outcome, proof, expected) => SettleNonpublicationMoves(s, f, outcome, proof, expected, now, k);
    case DoTerminalize(call) => TerminalizeMoves(s, call, now, k);
    case DoAcknowledge(f, target) => AcknowledgeMoves(s, f, target, now, k);
    case _ =>
      assert Perform(s, c, now).state.attempts == s.attempts;
      SameMoves(s.attempts, k);
  }

  // ---- Every attempt of every run ------------------------------------------------------------------------

  lemma StateSteps(commands: seq<(Command, nat)>, n: nat)
    requires n < |commands|
    ensures StateAt(commands, n + 1) == Perform(StateAt(commands, n), commands[n].0, commands[n].1).state
    ensures Inv(StateAt(commands, n)) && Inv(StateAt(commands, n + 1))
  {
    hide Inv, Perform;
    EmptyHolds();
    EveryRunKeeps(EMPTY, commands[..n]);
    EveryRunKeeps(EMPTY, commands[..n + 1]);
    assert commands[..n + 1][..n] == commands[..n];
  }

  // One command of a run moves attempt `k` by what it recorded.
  lemma RunMoves(commands: seq<(Command, nat)>, n: nat, k: Key)
    requires n < |commands|
    ensures Moves(StateAt(commands, n).attempts, StateAt(commands, n + 1).attempts, k,
                  EventsOf(StateAt(commands, n), commands[n].0, commands[n].1, k))
  {
    hide Inv, Perform, Moves, EventsOf;
    StateSteps(commands, n);
    PerformMoves(StateAt(commands, n), commands[n].0, commands[n].1, k);
  }

  // The row is what its history makes of its start, or ended where that history allowed it to.
  predicate Follows(row: AttemptRow, history: seq<A.Event>) {
    var a := A.At(StartOf(row), history, |history|);
    if row.state.LiveAttempt? then row.state == a && row.revision == 1 + |history|
    else A.MaySettle(a, row.state.outcome) && row.revision == 2 + |history|
  }

  predicate AllRecordable(start: A.Attempt, history: seq<A.Event>) {
    forall j :: 0 <= j < |history| ==> Recordable(A.At(start, history, j), history[j])
  }

  lemma {:induction false} SamePrefix(start: A.Attempt, events: seq<A.Event>, more: seq<A.Event>, k: nat)
    requires k <= |events|
    ensures A.At(start, events + more, k) == A.At(start, events, k)
    decreases k
  {
    if k > 0 {
      SamePrefix(start, events, more, k - 1);
    }
  }

  // One more event steps the last state, and is recordable if it was there.
  lemma OneMoreEvent(start: A.Attempt, history: seq<A.Event>, e: A.Event)
    ensures A.At(start, history + [e], |history| + 1) == A.Step(A.At(start, history, |history|), e)
    ensures AllRecordable(start, history) && Recordable(A.At(start, history, |history|), e)
        ==> AllRecordable(start, history + [e])
  {
    hide A.Step, Recordable;
    forall j: nat | j <= |history| ensures A.At(start, history + [e], j) == A.At(start, history, j) {
      SamePrefix(start, history, [e], j);
    }
  }

  lemma MovedFollows(row: AttemptRow, after: AttemptRow, history: seq<A.Event>, events: seq<A.Event>)
    requires Follows(row, history) && AllRecordable(StartOf(row), history) && RowMoves(row, after, events)
    ensures Follows(after, history + events) && AllRecordable(StartOf(after), history + events)
  {
    hide A.At, AllRecordable, A.Accepted;
    assert StartOf(after) == StartOf(row);
    if events == [] {
      assert history + events == history;
    } else {
      assert events == [events[0]];
      A.StepKeeps(row.state, events[0]);
      OneMoreEvent(StartOf(row), history, events[0]);
    }
  }

  // In every run, each attempt is exactly what the observations and deaths that run recorded for it, all
  // of them acceptable in turn, make of its start; an ended one was ended where they allowed it. Its
  // revision counts them.
  lemma {:induction false} EveryAttemptFollowsItsHistory(commands: seq<(Command, nat)>, n: nat, k: Key)
    requires n <= |commands|
    ensures if k in StateAt(commands, n).attempts
            then var row := StateAt(commands, n).attempts[k];
                 Follows(row, History(commands, n, k)) && AllRecordable(StartOf(row), History(commands, n, k))
            else History(commands, n, k) == []
    decreases n
  {
    hide Inv, Perform, EventsOf, Follows, AllRecordable, RowMoves;
    if n > 0 {
      EveryAttemptFollowsItsHistory(commands, n - 1, k);
      RunMoves(commands, n - 1, k);
      var before, after := StateAt(commands, n - 1), StateAt(commands, n);
      var events := EventsOf(before, commands[n - 1].0, commands[n - 1].1, k);
      assert History(commands, n, k) == History(commands, n - 1, k) + events;
      if k in before.attempts {
        MovedFollows(before.attempts[k], after.attempts[k], History(commands, n - 1, k), events);
      } else {
        assert History(commands, n, k) == [];
        if k in after.attempts {
          NewFollows(after.attempts[k]);
        }
      }
    } else {
      assert commands[..0] == [];
    }
  }

  lemma NewFollows(row: AttemptRow)
    requires NewRow(row)
    ensures Follows(row, []) && AllRecordable(StartOf(row), [])
  {}

  // ---- Where a success comes from -------------------------------------------------------------------------

  predicate HasSucceeded(as_: map<Key, AttemptRow>, k: Key) {
    k in as_ && as_[k].state == A.TerminalAttempt(A.Succeeded)
  }

  // After the first `n` commands, attempt `k` is live in a phase.
  ghost predicate LiveAt(commands: seq<(Command, nat)>, n: nat, k: Key) {
    n <= |commands| && k in StateAt(commands, n).attempts && StateAt(commands, n).attempts[k].state.LiveAttempt?
  }

  ghost function AttemptAt(commands: seq<(Command, nat)>, n: nat, k: Key): A.Attempt
    requires LiveAt(commands, n, k)
  {
    StateAt(commands, n).attempts[k].state
  }

  ghost predicate InPhase(commands: seq<(Command, nat)>, n: nat, k: Key, phase: A.LivePhase) {
    LiveAt(commands, n, k) && AttemptAt(commands, n, k).phase == phase
  }

  ghost predicate HasFact(commands: seq<(Command, nat)>, n: nat, k: Key) {
    LiveAt(commands, n, k) && (AttemptAt(commands, n, k).backendDone || AttemptAt(commands, n, k).processDead)
  }

  ghost predicate ReadyAt(commands: seq<(Command, nat)>, n: nat, k: Key) {
    LiveAt(commands, n, k) && A.ReadyToSucceed(AttemptAt(commands, n, k))
  }

  // A live attempt was live before the command that left it so, or is new.
  lemma LiveBefore(commands: seq<(Command, nat)>, n: nat, k: Key)
    requires n < |commands| && LiveAt(commands, n + 1, k)
    ensures if k in StateAt(commands, n).attempts
            then && LiveAt(commands, n, k)
                 && (AttemptAt(commands, n + 1, k) == AttemptAt(commands, n, k)
                     || exists e :: Recordable(AttemptAt(commands, n, k), e)
                                    && AttemptAt(commands, n + 1, k) == A.Step(AttemptAt(commands, n, k), e))
            else InPhase(commands, n + 1, k, A.PromptStarting) && !HasFact(commands, n + 1, k)
  {
    hide Inv, Perform, EventsOf;
    RunMoves(commands, n, k);
    if k in StateAt(commands, n).attempts {
      var row := StateAt(commands, n).attempts[k];
      var events := EventsOf(StateAt(commands, n), commands[n].0, commands[n].1, k);
      if events != [] {
        A.StepKeeps(row.state, events[0]);
      }
    }
  }

  lemma NoneLiveAtFirst(commands: seq<(Command, nat)>, k: Key)
    ensures !LiveAt(commands, 0, k)
  {
    assert commands[..0] == [];
  }

  // Only running the model brings a model context.
  lemma ContextComesFromTheModel(a: A.Attempt, e: A.Event)
    requires Recordable(a, e) && A.Step(a, e).LiveAttempt? && A.Contextual(A.Step(a, e).phase)
    ensures A.Step(a, e).phase == A.ModelRunning || A.Contextual(a.phase)
  {}

  // In a run, an attempt in a phase with a model context has been running the model before.
  lemma {:induction false} ContextRan(commands: seq<(Command, nat)>, n: nat, k: Key)
    requires LiveAt(commands, n, k) && A.Contextual(AttemptAt(commands, n, k).phase)
    ensures exists j: nat :: j <= n && InPhase(commands, j, k, A.ModelRunning)
    decreases n
  {
    hide StateAt, Run, A.Step, A.Contextual, Recordable;
    NoneLiveAtFirst(commands, k);
    if !InPhase(commands, n, k, A.ModelRunning) {
      LiveBefore(commands, n - 1, k);
      NotYetContextual();
      var before, after := AttemptAt(commands, n - 1, k), AttemptAt(commands, n, k);
      if after != before {
        var e :| Recordable(before, e) && after == A.Step(before, e);
        ContextComesFromTheModel(before, e);
      }
      ContextRan(commands, n - 1, k);
      var j: nat :| j <= n - 1 && InPhase(commands, j, k, A.ModelRunning);
      assert j <= n;
    }
  }

  lemma NotYetContextual()
    ensures !A.Contextual(A.PromptStarting)
  {}

  // In a run, a final fact freezes the phase for as long as the attempt is live, and stays.
  lemma {:induction false} FactFreezes(commands: seq<(Command, nat)>, i: nat, n: nat, k: Key)
    requires i <= n && HasFact(commands, i, k) && LiveAt(commands, n, k)
    ensures HasFact(commands, n, k) && AttemptAt(commands, n, k).phase == AttemptAt(commands, i, k).phase
    decreases n
  {
    if i < n {
      LiveBefore(commands, n - 1, k);
      RowStays(commands, i, n - 1, k);
      FactFreezes(commands, i, n - 1, k);
    }
  }

  lemma {:induction false} RowStays(commands: seq<(Command, nat)>, i: nat, n: nat, k: Key)
    requires i <= n <= |commands| && k in StateAt(commands, i).attempts
    ensures k in StateAt(commands, n).attempts
    decreases n
  {
    hide Inv, Perform, EventsOf, RowMoves;
    if i < n {
      RowStays(commands, i, n - 1, k);
      RunMoves(commands, n - 1, k);
    }
  }

  // In every run, an attempt that succeeded had been running the model at one step, stood settling with
  // both final facts at a later one, and at no step at all was live with a final fact outside settling.
  lemma {:induction false} SuccessIsEarned(commands: seq<(Command, nat)>, n: nat, k: Key)
    requires n <= |commands| && HasSucceeded(StateAt(commands, n).attempts, k)
    ensures exists j: nat, i: nat :: j < i < n && InPhase(commands, j, k, A.ModelRunning) && ReadyAt(commands, i, k)
    ensures forall m: nat :: HasFact(commands, m, k) ==> InPhase(commands, m, k, A.Settling)
    decreases n
  {
    if n > 0 {
      hide ReadyAt, InPhase, HasFact, HasSucceeded;
      LastStep(commands, n - 1, k);
      if HasSucceeded(StateAt(commands, n - 1).attempts, k) {
        SuccessIsEarned(commands, n - 1, k);
        var j: nat, i: nat :| j < i < n - 1 && InPhase(commands, j, k, A.ModelRunning) && ReadyAt(commands, i, k);
        assert j < i < n;
      } else {
        ReadyRan(commands, n - 1, k);
        FactsOnlySettling(commands, n - 1, k);
        var j: nat :| j < n - 1 && InPhase(commands, j, k, A.ModelRunning);
        assert j < n - 1 < n;
      }
    } else {
      NothingAtFirst(commands, k);
    }
  }

  lemma NothingAtFirst(commands: seq<(Command, nat)>, k: Key)
    ensures !HasSucceeded(StateAt(commands, 0).attempts, k)
  {
    assert commands[..0] == [];
  }

  lemma ReadyRan(commands: seq<(Command, nat)>, n: nat, k: Key)
    requires ReadyAt(commands, n, k)
    ensures exists j: nat :: j < n && InPhase(commands, j, k, A.ModelRunning)
  {
    ContextRan(commands, n, k);
    var j: nat :| j <= n && InPhase(commands, j, k, A.ModelRunning);
    assert j != n;
  }

  lemma FactsOnlySettling(commands: seq<(Command, nat)>, n: nat, k: Key)
    requires ReadyAt(commands, n, k)
    ensures forall m: nat :: HasFact(commands, m, k) ==> InPhase(commands, m, k, A.Settling)
  {
    forall m: nat | HasFact(commands, m, k) ensures InPhase(commands, m, k, A.Settling) {
      if m <= n {
        FactFreezes(commands, m, n, k);
      } else {
        FactFreezes(commands, n, m, k);
      }
    }
  }

  // The command that ends an attempt successfully finds it ready.
  lemma LastStep(commands: seq<(Command, nat)>, n: nat, k: Key)
    requires n < |commands| && HasSucceeded(StateAt(commands, n + 1).attempts, k)
    ensures HasSucceeded(StateAt(commands, n).attempts, k) || ReadyAt(commands, n, k)
  {
    hide Inv, Perform, EventsOf;
    RunMoves(commands, n, k);
    if k in StateAt(commands, n).attempts {
      var row := StateAt(commands, n).attempts[k];
      var events := EventsOf(StateAt(commands, n), commands[n].0, commands[n].1, k);
      if events != [] {
        A.StepKeeps(row.state, events[0]);
      }
    }
  }
}
