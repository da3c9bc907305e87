/** The phases of one attempt and its two finality facts (src/agent_comms/attempt_states.py). */
module Attempts {

  datatype LivePhase =
    | PromptStarting | PromptAccepted | ModelRunning | ToolRunning | Compaction | Settling
    | ModelStalled | Aborting | Retrying | ProviderUnavailable

  datatype Outcome = Succeeded | AttemptFailed | UnknownOutcome

  datatype Phase = Live(live: LivePhase) | Ended(outcome: Outcome)

  // A live attempt holds a lease; a terminal one has released it with both facts recorded.
  datatype Attempt =
    | LiveAttempt(phase: LivePhase, lease: nat, backendDone: bool, processDead: bool)
    | TerminalAttempt(outcome: Outcome)

  function PhaseOf(a: Attempt): Phase {
    if a.LiveAttempt? then Live(a.phase) else Ended(a.outcome)
  }

  predicate BackendDone(a: Attempt) {
    a.TerminalAttempt? || a.backendDone
  }

  predicate ProcessDead(a: Attempt) {
    a.TerminalAttempt? || a.processDead
  }

  predicate Final(a: Attempt) {
    BackendDone(a) && ProcessDead(a)
  }

  predicate Unsuccessful(p: Phase) {
    p.Ended? && !p.outcome.Succeeded?
  }

  // The declared edges; every live phase may end unsuccessfully.
  predicate Declared(from: LivePhase, to: Phase) {
    || Unsuccessful(to)
    || (from.Settling? && to == Ended(Succeeded))
    || (to.Live? && to.live in LiveSuccessors(from))
  }

  function LiveSuccessors(from: LivePhase): set<LivePhase> {
    match from
    case PromptStarting => {PromptAccepted, ProviderUnavailable}
    case PromptAccepted => {Aborting, ModelRunning, ModelStalled}
    case ModelRunning => {Aborting, Compaction, ModelStalled, ProviderUnavailable, Settling, ToolRunning}
    case ToolRunning => {Aborting, ModelRunning, Settling}
    case Compaction => {Aborting, ModelRunning, ModelStalled}
    case Settling => {}
    case ModelStalled => {Aborting}
    case Aborting => {Retrying}
    case Retrying => {ModelRunning, ModelStalled, PromptStarting, ProviderUnavailable}
    case ProviderUnavailable => {Retrying}
  }

  datatype Result = Observed(attempt: Attempt) | EdgeNotDeclared | FinalEvidence | LeaseHeld

  // One observation of a phase, with any finality it brings.
  function Observe(a: Attempt, phase: Phase, backendDone: bool, processDead: bool, progress: bool): Result {
    if phase != PhaseOf(a) && (a.TerminalAttempt? || !Declared(a.phase, phase)) then EdgeNotDeclared
    else
      var done, dead := BackendDone(a) || backendDone, ProcessDead(a) || processDead;
      var newFact := done != BackendDone(a) || dead != ProcessDead(a);
      if (BackendDone(a) || ProcessDead(a)) && (phase != PhaseOf(a) || progress || !newFact) then FinalEvidence
      else if phase.Ended? then LeaseHeld
      else Observed(LiveAttempt(phase.live, a.lease, done, dead))
  }

  // The recovery monitor records a death it saw, whatever the phase.
  function Record(a: Attempt, backendDone: bool): Attempt {
    if a.LiveAttempt? then a.(processDead := true, backendDone := a.backendDone || backendDone) else a
  }

  datatype Event =
    | Observation(phase: Phase, backendDone: bool, processDead: bool, progress: bool)
    | Monitor(done: bool)

  function Step(a: Attempt, e: Event): Attempt {
    match e
    case Observation(phase, done, dead, progress) =>
      var r := Observe(a, phase, done, dead, progress);
      if r.Observed? then r.attempt else a
    case Monitor(done) => Record(a, done)
  }

  predicate Accepted(a: Attempt, e: Event) {
    e.Observation? && Observe(a, e.phase, e.backendDone, e.processDead, e.progress).Observed?
  }

  function Started(lease: nat): Attempt {
    LiveAttempt(PromptStarting, lease, false, false)
  }

  // The attempt after the first `k` events; a refused one changes nothing.
  function At(start: Attempt, events: seq<Event>, k: nat): Attempt
    requires k <= |events|
  {
    if k == 0 then start else Step(At(start, events, k - 1), events[k - 1])
  }

  // ---- Finality over every run ------------------------------------------------------------------

  lemma StepKeeps(a: Attempt, e: Event)
    ensures var b := Step(a, e);
            && (BackendDone(a) ==> BackendDone(b))
            && (ProcessDead(a) ==> ProcessDead(b))
            && (BackendDone(a) || ProcessDead(a) ==> PhaseOf(b) == PhaseOf(a))
            && (a.LiveAttempt? <==> b.LiveAttempt?)
            && (a.LiveAttempt? ==> b.lease == a.lease)
  {}

  // Facts only grow, the phase freezes with the first of them, and the lease is never rewritten.
  lemma {:induction false} FinalityFreezesThePhase(start: Attempt, events: seq<Event>, i: nat, k: nat)
    requires i <= k <= |events|
    ensures var a, b := At(start, events, i), At(start, events, k);
            && (BackendDone(a) ==> BackendDone(b))
            && (ProcessDead(a) ==> ProcessDead(b))
            && (BackendDone(a) || ProcessDead(a) ==> PhaseOf(b) == PhaseOf(a))
            && (a.LiveAttempt? <==> b.LiveAttempt?)
            && (a.LiveAttempt? ==> b.lease == a.lease)
    decreases k
  {
    if i < k {
      FinalityFreezesThePhase(start, events, i, k - 1);
      StepKeeps(At(start, events, k - 1), events[k - 1]);
    }
  }

  function AcceptedCount(start: Attempt, events: seq<Event>, i: nat, k: nat): nat
    requires i <= k <= |events|
    decreases k
  {
    if i == k then 0
    else AcceptedCount(start, events, i, k - 1) + if Accepted(At(start, events, k - 1), events[k - 1]) then 1 else 0
  }

  function MissingFacts(a: Attempt): nat {
    (if BackendDone(a) then 0 else 1) + if ProcessDead(a) then 0 else 1
  }

  // With a fact recorded, an accepted observation brings the missing one, on the same phase without progress.
  lemma ObservationTakesAFact(a: Attempt, e: Event)
    requires BackendDone(a) || ProcessDead(a)
    ensures MissingFacts(Step(a, e)) + (if Accepted(a, e) then 1 else 0) <= MissingFacts(a) <= 1
    ensures Accepted(a, e) ==> !e.progress && e.phase == PhaseOf(a)
  {}

  // After the first fact at most one more observation is accepted: it brings the other fact, on the
  // same phase and without progress.
  lemma {:induction false} AtMostOneMoreObservation(start: Attempt, events: seq<Event>, i: nat, k: nat)
    requires i <= k <= |events|
    requires BackendDone(At(start, events, i)) || ProcessDead(At(start, events, i))
    ensures AcceptedCount(start, events, i,
        k) + MissingFacts(At(start, events, k)) <= MissingFacts(At(start, events, i)) <= 1
    ensures forall j :: i <= j < k && Accepted(At(start, events, j), events[j]) ==>
                          !events[j].progress && events[j].phase == PhaseOf(At(start, events, i))
    decreases k
  {
    hide Step, Accepted;
    if i < k {
      AtMostOneMoreObservation(start, events, i, k - 1);
      FinalityFreezesThePhase(start, events, i, k - 1);
      ObservationTakesAFact(At(start, events, k - 1), events[k - 1]);
    }
  }

  // ---- What success proves ------------------------------------------------------------------------

  predicate Contextual(p: LivePhase) {
    p in {ModelRunning, ToolRunning, Compaction, Settling}
  }

  ghost predicate RanModel(start: Attempt, events: seq<Event>, k: nat)
    requires k <= |events|
  {
    exists j :: 0 <= j <= k && PhaseOf(At(start, events, j)) == Live(ModelRunning)
  }

  // Every phase with a model context was preceded by the model running.
  lemma {:induction false} ContextFollowsTheModel(lease: nat, events: seq<Event>, k: nat)
    requires k <= |events|
    ensures At(Started(lease), events, k).LiveAttempt?
    ensures Contextual(At(Started(lease), events, k).phase) ==> RanModel(Started(lease), events, k)
    decreases k
  {
    if k > 0 {
      ContextFollowsTheModel(lease, events, k - 1);
      var before, after := At(Started(lease), events, k - 1), At(Started(lease), events, k);
      StepKeeps(before, events[k - 1]);
      if Contextual(after.phase) {
        if Contextual(before.phase) {
          var j :| 0 <= j <= k - 1 && PhaseOf(At(Started(lease), events, j)) == Live(ModelRunning);
          assert 0 <= j <= k;
        } else {
          assert PhaseOf(At(Started(lease), events, k)) == Live(ModelRunning);
        }
      }
    }
  }

  // What a silent or published success demands of the attempt.
  predicate ReadyToSucceed(a: Attempt) {
    a.LiveAttempt? && a.phase.Settling? && Final(a)
  }

  // Such an attempt ran the model, and recorded no final fact before entering settling.
  lemma SuccessWasSettledHonestly(lease: nat, events: seq<Event>, k: nat)
    requires k <= |events| && ReadyToSucceed(At(Started(lease), events, k))
    ensures RanModel(Started(lease), events, k)
    ensures forall j :: 0 <= j <= k && PhaseOf(At(Started(lease), events, j)) != Live(Settling)
                        ==> !BackendDone(At(Started(lease), events, j)) && !ProcessDead(At(Started(lease), events, j))
  {
    ContextFollowsTheModel(lease, events, k);
    forall j | 0 <= j <= k && PhaseOf(At(Started(lease), events, j)) != Live(Settling)
      ensures !BackendDone(At(Started(lease), events, j)) && !ProcessDead(At(Started(lease), events, j))
    {
      FinalityFreezesThePhase(Started(lease), events, j, k);
    }
  }

  // An outcome settles a live attempt only with both facts, along a declared edge.
  predicate MaySettle(a: Attempt, outcome: Outcome) {
    a.LiveAttempt? && Final(a) && (outcome.Succeeded? ==> a.phase.Settling?)
  }

  // Recording both facts on the phase an attempt is in is never refused while one is missing.
  lemma FinalObservationIsAccepted(a: Attempt)
    requires a.LiveAttempt? && !Final(a)
    ensures Observe(a, PhaseOf(a), true, true, false) == Observed(a.(backendDone := true, processDead := true))
    ensures MaySettle(a.(backendDone := true, processDead := true), UnknownOutcome)
  {}
}
