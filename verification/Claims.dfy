/** Wake claims: what one recipient decided about one message
    (src/agent_comms/assignment_states.py, assignment_store.py and wake_policy.py).
 */
module Claims {

  import opened Options

  datatype Mode = PassiveWake | BoundedTriageWake | FullWake

  predicate Active(mode: Mode) {
    !mode.PassiveWake?
  }

  // A decision before or after a claim is bound to an execution and a reply target.
  datatype Decision = Undecided(mode: Mode) | Engagement(mode: Mode, execution: string, target: string)

  datatype Claim =
    | Passive
    | TriagePending
    | FullPending
    | Ignored
    | Engaged(decision: Decision)
    | Completed(decision: Decision)
    | Deferred(decision: Decision)
    | Delivered(decision: Decision)
    | Failed(decision: Decision)

  datatype Kind =
    | PassiveKind | TriagePendingKind | FullPendingKind | IgnoredKind | EngagedKind
    | CompletedKind | DeferredKind | DeliveredKind | FailedKind

  datatype Verdict = Ignore | Engage

  // The columns a claim is stored under.
  datatype Projection = Projection(mode: Mode, verdict: Option<Verdict>, execution: Option<string>,
                                   target: Option<string>)

  function KindOf(c: Claim): Kind {
    match c
    case Passive => PassiveKind
    case TriagePending => TriagePendingKind
    case FullPending => FullPendingKind
    case Ignored => IgnoredKind
    case Engaged(_) => EngagedKind
    case Completed(_) => CompletedKind
    case Deferred(_) => DeferredKind
    case Delivered(_) => DeliveredKind
    case Failed(_) => FailedKind
  }

  predicate Decides(c: Claim) {
    c.Engaged? || c.Completed? || c.Deferred? || c.Delivered? || c.Failed?
  }

  function ModeOf(c: Claim): Mode {
    match c
    case Passive => PassiveWake
    case TriagePending => BoundedTriageWake
    case FullPending => FullWake
    case Ignored => BoundedTriageWake
    case _ => c.decision.mode
  }

  predicate Bound(c: Claim) {
    Decides(c) && c.decision.Engagement?
  }

  function ExecutionOf(c: Claim): Option<string> {
    if Bound(c) then Some(c.decision.execution) else None
  }

  function TargetOf(c: Claim): Option<string> {
    if Bound(c) then Some(c.decision.target) else None
  }

  function VerdictOf(c: Claim): Option<Verdict> {
    if c.Ignored? then Some(Ignore)
    else if Bound(c) && c.decision.mode.BoundedTriageWake? then Some(Engage)
    else None
  }

  function Project(c: Claim): Projection {
    Projection(ModeOf(c), VerdictOf(c), ExecutionOf(c), TargetOf(c))
  }

  predicate SoundDecision(d: Decision) {
    && Active(d.mode)
    && (d.Engagement? ==> d.execution != "" && d.target != "")
  }

  // What the declarations can construct.
  predicate WellFormed(c: Claim) {
    match c
    case Engaged(d) => SoundDecision(d) && d.Engagement?
    case Completed(d) => SoundDecision(d) && d.Engagement?
    case Deferred(d) => SoundDecision(d)
    case Delivered(d) => SoundDecision(d) && d.Undecided?
    case Failed(d) => SoundDecision(d)
    case _ => true
  }

  // ---- Building, storing and loading a claim ---------------------------------------------------

  function Engaging(mode: Mode, execution: Option<string>, target: Option<string>): Option<Decision> {
    if Active(mode) && execution.Some? && execution.value != "" && target.Some? && target.value != ""
    then Some(Engagement(mode, execution.value, target.value))
    else None
  }

  function Deciding(mode: Mode): Option<Decision> {
    if Active(mode) then Some(Undecided(mode)) else None
  }

  function Build(kind: Kind, mode: Mode, execution: Option<string>, target: Option<string>): Option<Claim> {
    match kind
    case PassiveKind => Some(Passive)
    case TriagePendingKind => Some(TriagePending)
    case FullPendingKind => Some(FullPending)
    case IgnoredKind => Some(Ignored)
    case EngagedKind =>
      var d := Engaging(mode, execution, target);
      if d.Some? then Some(Engaged(d.value)) else None
    case CompletedKind =>
      var d := Engaging(mode, execution, target);
      if d.Some? then Some(Completed(d.value)) else None
    case DeferredKind =>
      var d := if execution.None? then Deciding(mode) else Engaging(mode, execution, target);
      if d.Some? then Some(Deferred(d.value)) else None
    case DeliveredKind =>
      var d := Deciding(mode);
      if d.Some? then Some(Delivered(d.value)) else None
    case FailedKind =>
      var d := if execution.None? then Deciding(mode) else Engaging(mode, execution, target);
      if d.Some? then Some(Failed(d.value)) else None
  }

  // Rebuild a stored claim; a relation the class would not store is refused.
  function Load(kind: Kind, p: Projection): Option<Claim> {
    var c := Build(kind, p.mode, p.execution, p.target);
    if c.Some? && Project(c.value) == p then c else None
  }

  // Storing a claim and loading it gives the claim back, and nothing loads but what some claim stores.
  lemma LoadInvertsProject(c: Claim, kind: Kind, p: Projection)
    requires WellFormed(c)
    ensures Load(KindOf(c), Project(c)) == Some(c)
    ensures Load(kind, p) == Some(c) <==> KindOf(c) == kind && Project(c) == p
  {}

  lemma LoadedIsWellFormed(kind: Kind, p: Projection)
    ensures Load(kind, p).Some? <==> exists c :: WellFormed(c) && KindOf(c) == kind && Project(c) == p
  {
    if Load(kind, p).Some? {
      var c := Load(kind, p).value;
      assert WellFormed(c) && KindOf(c) == kind;
    }
    forall c | WellFormed(c) && KindOf(c) == kind && Project(c) == p ensures Load(kind, p).Some? {
      LoadInvertsProject(c, kind, p);
    }
  }

  // The row check each class declares.
  predicate BindingHolds(kind: Kind, p: Projection) {
    match kind
    case EngagedKind => p.execution.Some? && p.target.Some?
    case CompletedKind => p.execution.Some? && p.target.Some?
    case DeferredKind => Active(p.mode) && (p.execution.Some? <==> p.target.Some?)
    case FailedKind => Active(p.mode) && (p.execution.Some? <==> p.target.Some?)
    case _ => p.execution.None? && p.target.None?
  }

  // ---- Transitions -------------------------------------------------------------------------------

  function Successors(kind: Kind): set<Kind> {
    match kind
    case TriagePendingKind => {IgnoredKind, EngagedKind, DeferredKind, FailedKind}
    case FullPendingKind => {EngagedKind, DeferredKind, FailedKind}
    case EngagedKind => {CompletedKind, DeferredKind, FailedKind}
    case DeferredKind => {TriagePendingKind, FullPendingKind, EngagedKind, DeliveredKind, FailedKind}
    case _ => {}
  }

  predicate PreengagementTarget(kind: Kind) {
    kind in {TriagePendingKind, FullPendingKind, IgnoredKind, DeferredKind, DeliveredKind, FailedKind}
  }

  // A step of a claim not yet bound to an execution; `None` refuses it.
  function Preengagement(c: Claim, kind: Kind): Option<Claim> {
    if Bound(c) || kind !in Successors(KindOf(c)) || !PreengagementTarget(kind) then None
    else
      var after := Build(kind, ModeOf(c), None, None);
      if after.Some? && ModeOf(after.value) == ModeOf(c) then after else None
  }

  function InitialState(mode: Mode): Claim {
    match mode
    case PassiveWake => Passive
    case BoundedTriageWake => TriagePending
    case FullWake => FullPending
  }

  predicate Engageable(c: Claim) {
    c.TriagePending? || c.FullPending? || c.Deferred?
  }

  // Everything that moves a claim: a step before engagement, the engagement of an execution's
  // sources, the settlement of its attempt, and the resumption by the next attempt.
  datatype Event =
    | Step(kind: Kind)
    | EngageWith(execution: string, target: string)
    | SettleAs(kind: Kind)
    | Resume

  function Rebound(c: Claim, kind: Kind): Option<Claim> {
    if kind in Successors(KindOf(c)) then Build(kind, ModeOf(c), ExecutionOf(c), TargetOf(c)) else None
  }

  function Moved(c: Claim, e: Event): Option<Claim> {
    match e
    case Step(kind) => Preengagement(c, kind)
    case EngageWith(execution, target) =>
      if Engageable(c) && !Bound(c) then Build(EngagedKind, ModeOf(c), Some(execution), Some(target)) else None
    case SettleAs(kind) => if c.Engaged? then Rebound(c, kind) else None
    case Resume => if c.Deferred? && Bound(c) then Rebound(c, EngagedKind) else None
  }

  // A refused event leaves the claim as it is.
  function Run(c: Claim, events: seq<Event>): Claim {
    if events == [] then c
    else
      var before := Run(c, events[..|events| - 1]);
      var after := Moved(before, events[|events| - 1]);
      if after.Some? then after.value else before
  }

  predicate Terminal(c: Claim) {
    Successors(KindOf(c)) == {}
  }

  // One event: a claim stays well formed, keeps its mode, and never changes a recorded binding or verdict.
  lemma MovedKeeps(c: Claim, e: Event)
    requires WellFormed(c) && Moved(c, e).Some?
    ensures var d := Moved(c, e).value;
            && WellFormed(d)
            && ModeOf(d) == ModeOf(c)
            && KindOf(d) in Successors(KindOf(c))
            && (Bound(c) ==> Bound(d) && d.decision == c.decision)
            && (VerdictOf(c).Some? ==> VerdictOf(d) == VerdictOf(c))
            && (!Bound(c) && Bound(d) ==> d.Engaged?)
  {}

  // Over every run of events.
  lemma {:induction false} RunKeeps(c: Claim, events: seq<Event>)
    requires WellFormed(c)
    ensures var d := Run(c, events);
            && WellFormed(d)
            && ModeOf(d) == ModeOf(c)
            && BindingHolds(KindOf(d), Project(d))
            && (Bound(c) ==> Bound(d) && d.decision == c.decision)
            && (Terminal(c) ==> d == c)
            && (ModeOf(c).FullWake? ==> !d.Ignored?)
            && (d.TriagePending? || d.FullPending? ==> d == InitialState(ModeOf(c)))
            && Load(KindOf(d), Project(d)) == Some(d)
  {
    if events != [] {
      RunKeeps(c, events[..|events| - 1]);
      var before := Run(c, events[..|events| - 1]);
      var e := events[|events| - 1];
      if Moved(before, e).Some? {
        MovedKeeps(before, e);
      }
    }
    LoadInvertsProject(Run(c, events), KindOf(Run(c, events)), Project(Run(c, events)));
  }

  // Before engagement a claim is never bound, and a deferred claim returns to its own start only.
  lemma PreengagementStaysUnbound(c: Claim, kind: Kind)
    requires WellFormed(c) && Preengagement(c, kind).Some?
    ensures !Bound(Preengagement(c, kind).value)
    ensures c.Deferred? && (kind.TriagePendingKind? || kind.FullPendingKind?)
            ==> Preengagement(c, kind).value == InitialState(ModeOf(c))
    ensures ModeOf(c).FullWake? ==> !kind.IgnoredKind?
  {}

  // ---- Selection for a wake -------------------------------------------------------------------------

  predicate Selected(c: Claim) {
    c.TriagePending? || c.FullPending? || (c.Deferred? && Bound(c))
  }

  // Back in the pending state of its own mode, or taken by an execution.
  predicate Reopened(c: Claim, d: Claim) {
    d == InitialState(ModeOf(c)) || d.Engaged?
  }

  ghost predicate ReopenedBy(c: Claim, events: seq<Event>) {
    exists i: nat :: i <= |events| && Reopened(c, Run(c, events[..i]))
  }

  // An input of unknown outcome, deferred and unbound, is not selected again by any run of events before
  // a return to the pending state of its own mode or an engagement; until then it is itself or settled.
  lemma {:induction false} UnboundDeferralIsNotReplayed(c: Claim, events: seq<Event>)
    requires WellFormed(c) && c.Deferred? && !Bound(c)
    ensures Selected(Run(c, events)) ==> ReopenedBy(c, events)
    ensures var d := Run(c, events); ReopenedBy(c, events) || d == c || (!Bound(d) && Terminal(d))
  {
    if events != [] {
      var n := |events| - 1;
      UnboundDeferralIsNotReplayed(c, events[..n]);
      RunKeeps(c, events[..n]);
      if ReopenedBy(c, events[..n]) {
        var i: nat :| i <= n && Reopened(c, Run(c, events[..n][..i]));
        assert events[..n][..i] == events[..i];
        assert ReopenedBy(c, events);
      } else {
        var before := Run(c, events[..n]);
        if Moved(before, events[n]).Some? {
          MovedKeeps(before, events[n]);
        }
        assert events[..|events|] == events;
        assert Reopened(c, Run(c, events)) ==> ReopenedBy(c, events);
      }
    }
  }

  // Only the engagement of an execution binds a claim.
  lemma {:induction false} NothingElseBinds(c: Claim, events: seq<Event>)
    requires WellFormed(c) && !Bound(c) && forall i :: 0 <= i < |events| ==> !events[i].EngageWith?
    ensures !Bound(Run(c, events))
  {
    if events != [] {
      NothingElseBinds(c, events[..|events| - 1]);
      RunKeeps(c, events[..|events| - 1]);
    }
  }

  // So without an engagement it is selected only after it was pending again...
  lemma UnengagedDeferralReturnsToPending(c: Claim, events: seq<Event>)
    requires WellFormed(c) && c.Deferred? && !Bound(c) && forall i :: 0 <= i < |events| ==> !events[i].EngageWith?
    requires Selected(Run(c, events))
    ensures exists i: nat :: i <= |events| && Run(c, events[..i]) == InitialState(ModeOf(c))
  {
    UnboundDeferralIsNotReplayed(c, events);
    var i: nat :| i <= |events| && Reopened(c, Run(c, events[..i]));
    NothingElseBinds(c, events[..i]);
    RunKeeps(c, events[..i]);
    assert Run(c, events[..i]) == InitialState(ModeOf(c));
  }

  // ...and any engagement that is deferred again selects it, though it never was.
  lemma EngagementSelectsWithoutPending(c: Claim, execution: string, target: string)
    requires WellFormed(c) && c.Deferred? && !Bound(c) && execution != "" && target != ""
    ensures var events := [EngageWith(execution, target), SettleAs(DeferredKind)];
            && Selected(Run(c, events))
            && forall i: nat :: i <= |events| ==> !Run(c, events[..i]).TriagePending?
                                                  && !Run(c, events[..i]).FullPending?
  {
    var engage, settle := EngageWith(execution, target), SettleAs(DeferredKind);
    var events := [engage, settle];
    assert events[..0] == [] && events[..1] == [engage] && events[..2] == events && [engage][..0] == [];
    var d := Engagement(ModeOf(c), execution, target);
    assert Run(c, [engage]) == Engaged(d);
    assert Run(c, events) == Deferred(d);
  }

  // ---- What a harness outside Core did ----------------------------------------------------------------

  datatype HarnessReport = Handoff | Delivery

  function HarnessSteps(report: HarnessReport, c: Claim): seq<Kind> {
    match report
    case Handoff => if c.TriagePending? || c.FullPending? then [DeferredKind] else []
    case Delivery =>
      if c.TriagePending? || c.FullPending? then [DeferredKind, DeliveredKind]
      else if c.Deferred? then [DeliveredKind]
      else []
  }

  // Who a claim is about: the recipient, the message's sequence and its content identity.
  datatype Row = Row(recipient: string, seqNo: nat, message: string, claim: Claim, revision: nat)

  type Table = map<string, Row>

  function Transitioned(row: Row, kind: Kind): Option<Row> {
    var after := Preengagement(row.claim, kind);
    if after.Some? then Some(row.(claim := after.value, revision := row.revision + 1)) else None
  }

  function Walked(row: Row, kinds: seq<Kind>): Option<Row>
    decreases |kinds|
  {
    if kinds == [] then Some(row)
    else
      var next := Transitioned(row, kinds[0]);
      if next.Some? then Walked(next.value, kinds[1..]) else None
  }

  predicate Open(c: Claim) {
    c.TriagePending? || c.FullPending? || c.Deferred?
  }

  // Every step a claim declares is accepted unless the claim is a deferred one already bound; a
  // delivery ends delivered, one revision per step, and a settled claim does not move.
  lemma HarnessWalk(row: Row, report: HarnessReport)
    requires WellFormed(row.claim)
    ensures Walked(row, HarnessSteps(report, row.claim)).Some?
            <==> !(report.Delivery? && row.claim.Deferred? && Bound(row.claim))
    ensures var w := Walked(row, HarnessSteps(report, row.claim));
            w.Some? ==>
              && w.value.revision == row.revision + |HarnessSteps(report, row.claim)|
              && ModeOf(w.value.claim) == ModeOf(row.claim)
              && (!Open(row.claim) ==> w.value == row)
              && (Open(row.claim) && report.Delivery? ==> w.value.claim == Delivered(Undecided(ModeOf(row.claim))))
              && (Open(row.claim) && report.Handoff? && !row.claim.Deferred?
                  ==> w.value.claim == Deferred(Undecided(ModeOf(row.claim))) && !Selected(w.value.claim))
  {
    var c := row.claim;
    if c.TriagePending? || c.FullPending? {
      var mid := row.(claim := Deferred(Undecided(ModeOf(c))), revision := row.revision + 1);
      assert Transitioned(row, DeferredKind) == Some(mid);
      assert Walked(row, [DeferredKind]) == Walked(mid, [DeferredKind][1..]);
      assert [DeferredKind, DeliveredKind][1..] == [DeliveredKind];
      assert Walked(mid, [DeliveredKind]) == Walked(Transitioned(mid, DeliveredKind).value, []);
    } else if c.Deferred? && report.Delivery? && !Bound(c) {
      assert Walked(row, [DeliveredKind]) == Walked(Transitioned(row, DeliveredKind).value, []);
    }
  }

  // The claim ids of these sources, which must each name the message they were sent for.
  predicate NamesSource(row: Row, recipient: string, sources: seq<(nat, string)>) {
    row.recipient == recipient && exists i :: 0 <= i < |sources| && sources[i].0 == row.seqNo
  }

  // One recipient has one claim per message sequence, whatever its id.
  predicate OneClaimPerMessage(t: Table) {
    forall a, b :: a in t && b in t && t[a].recipient == t[b].recipient && t[a].seqNo == t[b].seqNo ==> a == b
  }

  // The batch is refused whole when a selected claim names another message or cannot walk.
  predicate BatchAccepted(t: Table, recipient: string, sources: seq<(nat, string)>, report: HarnessReport) {
    forall id :: id in t && NamesSource(t[id], recipient, sources) ==>
                   && (t[id].seqNo, t[id].message) in sources
                   && Walked(t[id], HarnessSteps(report, t[id].claim)).Some?
  }

  ghost function BatchSettled(t: Table, recipient: string, sources: seq<(nat, string)>, report: HarnessReport): Table
    requires BatchAccepted(t, recipient, sources, report)
  {
    map id | id in t ::
      if NamesSource(t[id], recipient, sources) then Walked(t[id], HarnessSteps(report, t[id].claim)).value else t[id]
  }

  // The claims walked so far; every other row is untouched.
  ghost predicate PartSettled(original: Table, t: Table, done: set<string>, sources: seq<(nat, string)>,
                              report: HarnessReport) {
    && t.Keys == original.Keys && done <= t.Keys
    && (forall id :: id in t && id !in done ==> t[id] == original[id])
    && (forall id :: id in done ==>
                       && (original[id].seqNo, original[id].message) in sources
                       && Walked(original[id], HarnessSteps(report, original[id].claim)) == Some(t[id]))
  }

  lemma PartSettledStep(original: Table, t: Table, done: set<string>, sources: seq<(nat, string)>,
                        report: HarnessReport, id: string)
    requires PartSettled(original, t, done, sources, report) && id in t && id !in done
    requires (t[id].seqNo, t[id].message) in sources && Walked(t[id], HarnessSteps(report, t[id].claim)).Some?
    ensures PartSettled(original, t[id := Walked(t[id], HarnessSteps(report, t[id].claim)).value], done + {id},
        sources, report)
  {}

  lemma AllSettled(original: Table, t: Table, done: set<string>, recipient: string, sources: seq<(nat, string)>,
                   report: HarnessReport)
    requires PartSettled(original, t, done, sources, report)
    requires forall id :: id in done <==> id in original && NamesSource(original[id], recipient, sources)
    ensures BatchAccepted(original, recipient, sources, report)
        && t == BatchSettled(original, recipient, sources, report)
  {}

  // ---- The store -----------------------------------------------------------------------------------------

  datatype Answer<+T> = Applied(value: T) | AlreadyApplied(value: T) | Stale | Conflict

  // Only progress may differ between an accepted claim and its repeated acceptance.
  predicate SameAcceptance(a: Row, b: Row) {
    a.recipient == b.recipient && a.seqNo == b.seqNo && a.message == b.message && ModeOf(a.claim) == ModeOf(b.claim)
  }

  class AssignmentStore {
    var rows: Table

    constructor ()
      ensures rows == map[]
    {
      rows := map[];
    }

    ghost predicate Valid()
      reads this
    {
      && OneClaimPerMessage(rows)
      && forall id :: id in rows ==> WellFormed(rows[id].claim)
    }

    method Accept(id: string, row: Row) returns (answer: Answer<Row>)
      requires Valid()
      modifies this
      ensures Valid()
      ensures row.claim != InitialState(ModeOf(row.claim)) || row.revision != 1 ==> answer == Conflict
      ensures answer.Applied? ==> answer.value == row && id !in old(rows) && rows == old(rows)[id := row]
      ensures !answer.Applied? ==> rows == old(rows)
      ensures row.claim == InitialState(ModeOf(row.claim)) && row.revision == 1 ==>
                (answer.AlreadyApplied? <==> id in rows && !answer.Applied? && SameAcceptance(rows[id], row))
      ensures answer.AlreadyApplied? ==> answer.value == rows[id]
    {
      if row.claim != InitialState(ModeOf(row.claim)) || row.revision != 1 {
        return Conflict;
      }
      if k :| k in rows && (k == id || (rows[k].recipient == row.recipient && rows[k].seqNo == row.seqNo)) {
        return if k == id && SameAcceptance(rows[k], row) then AlreadyApplied(rows[k]) else Conflict;
      }
      rows := rows[id := row];
      answer := Applied(row);
    }

    // One step inside the caller's write, fenced on the claim's revision.
    method TransitionIn(id: string, kind: Kind, expectedRevision: nat) returns (answer: Answer<Row>)
      requires Valid()
      modifies this
      ensures Valid()
      ensures answer.Applied? <==> id in old(rows) && old(rows)[id].revision == expectedRevision
                                   && Transitioned(old(rows)[id], kind).Some?
      ensures answer.Applied? ==> Some(answer.value) == Transitioned(old(rows)[id], kind)
                                  && rows == old(rows)[id := answer.value]
      ensures !answer.Applied? ==> rows == old(rows)
    {
      if id !in rows {
        return Conflict;
      }
      var current := rows[id];
      if current.revision != expectedRevision {
        return Stale;
      }
      var lifecycle := Preengagement(current.claim, kind);
      if lifecycle.None? {
        return Conflict;
      }
      MovedKeeps(current.claim, Step(kind));
      var after := current.(claim := lifecycle.value, revision := current.revision + 1);
      rows := rows[id := after];
      answer := Applied(after);
    }

    // Return a delivery that was proved not sent to the state its mode starts in.
    method RestoreUnboundDelivery(id: string, captured: Row) returns (answer: Answer<Row>)
      requires Valid()
      modifies this
      ensures Valid()
      ensures answer.Applied? <==> id in old(rows) && old(rows)[id] == captured
                                   && captured.claim.Deferred? && !Bound(captured.claim)
      ensures answer.Applied? ==> rows == old(rows)[id := captured.(claim := InitialState(ModeOf(captured.claim)),
                                                                     revision := captured.revision + 1)]
      ensures !answer.Applied? ==> rows == old(rows)
    {
      if id !in rows {
        return Conflict;
      }
      if rows[id] != captured {
        return Stale;
      }
      answer := TransitionIn(id, KindOf(InitialState(ModeOf(captured.claim))), captured.revision);
    }

    // Walk each selected claim through the steps it declares; a refusal undoes the whole write.
    method SettleHarnessInputs(recipient: string, sources: seq<(nat, string)>, report: HarnessReport)
      returns (accepted: bool)
      requires Valid()
      modifies this
      ensures Valid()
      ensures accepted <==> BatchAccepted(old(rows), recipient, sources, report)
      ensures accepted ==> rows == BatchSettled(old(rows), recipient, sources, report)
      ensures !accepted ==> rows == old(rows)
    {
      var original := rows;
      var selected := set id | id in rows && NamesSource(rows[id], recipient, sources);
      var left := selected;
      while left != {}
        invariant Valid() && left <= selected
        invariant PartSettled(original, rows, selected - left, sources, report)
        decreases left
      {
        var id :| id in left;
        var claim := rows[id];
        assert claim == original[id] && NamesSource(claim, recipient, sources);
        if (claim.seqNo, claim.message) !in sources {
          rows := original;
          return false;
        }
        ghost var before := rows;
        var walked := WalkClaim(id, HarnessSteps(report, claim.claim));
        if !walked {
          rows := original;
          return false;
        }
        PartSettledStep(original, before, selected - left, sources, report, id);
        assert selected - (left - {id}) == selected - left + {id};
        left := left - {id};
      }
      AllSettled(original, rows, selected, recipient, sources, report);
      accepted := true;
    }

    method WalkClaim(id: string, kinds: seq<Kind>) returns (walked: bool)
      requires Valid() && id in rows
      modifies this
      ensures walked <==> Walked(old(rows)[id], kinds).Some?
      ensures walked ==> Valid() && rows == old(rows)[id := Walked(old(rows)[id], kinds).value]
    {
      var claim := rows[id];
      ghost var start := rows;
      var i := 0;
      while i < |kinds|
        invariant 0 <= i <= |kinds| && Valid()
        invariant rows == start[id := claim]
        invariant claim.recipient == start[id].recipient && claim.seqNo == start[id].seqNo
        invariant Walked(claim, kinds[i..]) == Walked(start[id], kinds)
      {
        var answer := TransitionIn(id, kinds[i], claim.revision);
        assert kinds[i..][1..] == kinds[i + 1..];
        if !answer.Applied? {
          return false;
        }
        claim := answer.value;
        i := i + 1;
      }
      walked := true;
    }
  }
}
