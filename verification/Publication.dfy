/** Publishing to the bus: one growing log, sequences given once, and resends answered by their original
    (`append`, `append_original` and `_publish` of src/agent_comms/bus.py and `KeyedPublication.append_to` of
    src/agent_comms/bus_publication.py).
 */
module Publication {
  import opened Options

  // What a publication binds: every field of the message but those the bus assigns.
  datatype Content = Content(sender: string, messageId: string, target: string, time: real, body: string)

  datatype Recipient = Recipient(lookup: string, thread: string, awaits: bool)

  // The frozen audience of a delivered record.
  datatype Delivery = Delivery(lookup: string, recipients: seq<Recipient>, startsTurn: bool)

  // A record to publish: who speaks, whether it counts as conversation, whether its kind is routed.
  datatype Proposal = Proposal(content: Content, fromUser: bool, conversational: bool, routed: bool,
                               delivery: Option<Delivery>, key: Option<string>)

  datatype Record = Record(seqNo: nat, made: Proposal)

  // The records in order, and the last sequence ever given.
  datatype Log = Log(records: seq<Record>, sequence: nat)

  const EMPTY := Log([], 0)

  datatype Refusal = DifferentContent | AmbiguousIdentity | IdentityUsed | RepeatedRecipient

  datatype Answer = Published(seqNo: nat) | Refused(reason: Refusal)

  predicate Named(r: Record, sender: string, messageId: string) {
    r.made.content.sender == sender && r.made.content.messageId == messageId
  }

  predicate Identifies(r: Record, p: Proposal) {
    Named(r, p.content.sender, p.content.messageId)
  }

  // The records under one sender and message identity, in order.
  function Identified(records: seq<Record>, p: Proposal): seq<nat> {
    if records == [] then []
    else
      Identified(records[..|records| - 1], p)
      + if Identifies(records[|records| - 1], p) then [|records| - 1] else []
  }

  // The record a publication key names.
  function Keyed(records: seq<Record>, key: string): Option<nat> {
    if records == [] then None
    else if records[|records| - 1].made.key == Some(key) then Some(|records| - 1)
    else Keyed(records[..|records| - 1], key)
  }

  // Two recipients with one lookup cannot be indexed, so the transaction is rolled back.
  predicate DistinctRecipients(p: Proposal) {
    p.delivery.Some? ==>
      var rs := p.delivery.value.recipients;
      forall i, j :: 0 <= i < j < |rs| ==> rs[i].lookup != rs[j].lookup
  }

  function Inserted(b: Log, p: Proposal): (Log, Answer) {
    if DistinctRecipients(p)
    then (Log(b.records + [Record(b.sequence + 1, p)], b.sequence + 1), Published(b.sequence + 1))
    else (b, Refused(RepeatedRecipient))
  }

  // Answer with the original of the same content.
  function Original(b: Log, i: nat, p: Proposal): (Log, Answer)
    requires i < |b.records|
  {
    (b, if b.records[i].made.content == p.content then Published(b.records[i].seqNo) else Refused(DifferentContent))
  }

  function Append(b: Log, p: Proposal): (Log, Answer) {
    var original := if p.key.Some? then Keyed(b.records, p.key.value) else None;
    if original.Some? then
      KeyedNames(b.records, p.key.value);
      Original(b, original.value, p)
    else Inserted(b, p)
  }

  function AppendOriginal(b: Log, p: Proposal): (Log, Answer) {
    var found := Identified(b.records, p);
    if found == [] then Append(b, p)
    else if |found| == 1 then
      IdentifiedHolds(b.records, p);
      Original(b, found[0], p)
    else (b, Refused(AmbiguousIdentity))
  }

  // A person's message is never answered by an earlier one.
  function AppendHuman(b: Log, p: Proposal): (Log, Answer) {
    if Identified(b.records, p) != [] then (b, Refused(IdentityUsed)) else Append(b, p)
  }

  lemma {:induction false} KeyedNames(records: seq<Record>, key: string)
    ensures Keyed(records, key).Some? ==> Keyed(records, key).value < |records|
                                          && records[Keyed(records, key).value].made.key == Some(key)
    ensures Keyed(records, key).None? ==> forall i :: 0 <= i < |records| ==> records[i].made.key != Some(key)
  {
    if records != [] && records[|records| - 1].made.key != Some(key) {
      KeyedNames(records[..|records| - 1], key);
      assert forall i :: 0 <= i < |records| - 1 ==> records[..|records| - 1][i] == records[i];
    }
  }

  // Exactly the identity's records, each once.
  lemma {:induction false} IdentifiedHolds(records: seq<Record>, p: Proposal)
    ensures forall k :: 0 <= k < |Identified(records, p)| ==> Identified(records, p)[k] < |records|
                                                              && Identifies(records[Identified(records, p)[k]], p)
    ensures forall i :: 0 <= i < |records| && Identifies(records[i], p) ==> i in Identified(records, p)
    ensures forall j, k :: 0 <= j < k < |Identified(records, p)|
                           ==> Identified(records, p)[j] < Identified(records, p)[k]
  {
    if records != [] {
      var shorter := records[..|records| - 1];
      IdentifiedHolds(shorter, p);
      var earlier, all := Identified(shorter, p), Identified(records, p);
      assert forall k :: 0 <= k < |earlier| ==> all[k] == earlier[k];
      forall i | 0 <= i < |records| && Identifies(records[i], p) ensures i in all {
        if i < |shorter| {
          assert shorter[i] == records[i];
          assert i in earlier;
        } else {
          assert all[|all| - 1] == i;
        }
      }
    }
  }

  // ---- Invariants of every run ----------------------------------------------------------------------------

  predicate Increasing(b: Log) {
    && (forall i :: 0 <= i < |b.records| ==> 0 < b.records[i].seqNo <= b.sequence)
    && (forall i, j :: 0 <= i < j < |b.records| ==> b.records[i].seqNo < b.records[j].seqNo)
  }

  predicate KeysNameOne(b: Log) {
    forall i, j :: 0 <= i < j < |b.records| && b.records[i].made.key.Some?
        ==> b.records[i].made.key != b.records[j].made.key
  }

  predicate Sound(b: Log) {
    && Increasing(b) && KeysNameOne(b)
    && forall i :: 0 <= i < |b.records| ==> DistinctRecipients(b.records[i].made)
  }

  // Nothing recorded changes or is forgotten, and at most one record is added.
  predicate Grows(before: Log, after: Log) {
    && |before.records| <= |after.records| && after.records[..|before.records|] == before.records
    && before.sequence <= after.sequence
  }

  lemma InsertedKeeps(b: Log, p: Proposal)
    requires Sound(b) && (p.key.Some? ==> Keyed(b.records, p.key.value).None?)
    ensures Sound(Inserted(b, p).0) && Grows(b, Inserted(b, p).0)
  {
    if p.key.Some? {
      KeyedNames(b.records, p.key.value);
    }
  }

  datatype Command = Plain(p: Proposal) | Resendable(p: Proposal) | Human(p: Proposal)

  function Perform(b: Log, c: Command): (Log, Answer) {
    match c
    case Plain(p) => Append(b, p)
    case Resendable(p) => AppendOriginal(b, p)
    case Human(p) => AppendHuman(b, p)
  }

  lemma AppendKeeps(b: Log, p: Proposal)
    requires Sound(b)
    ensures Sound(Append(b, p).0) && Grows(b, Append(b, p).0)
  {
    if p.key.None? || Keyed(b.records, p.key.value).None? {
      InsertedKeeps(b, p);
    }
  }

  lemma PerformKeeps(b: Log, c: Command)
    requires Sound(b)
    ensures Sound(Perform(b, c).0) && Grows(b, Perform(b, c).0)
  {
    AppendKeeps(b, c.p);
  }

  function Run(b: Log, commands: seq<Command>): Log {
    if commands == [] then b
    else Perform(Run(b, commands[..|commands| - 1]), commands[|commands| - 1]).0
  }

  // Over every run sequences increase, a publication key names one record, and the past stays.
  lemma {:induction false} EveryRunKeeps(b: Log, commands: seq<Command>)
    requires Sound(b)
    ensures Sound(Run(b, commands)) && Grows(b, Run(b, commands))
  {
    if commands != [] {
      var earlier := Run(b, commands[..|commands| - 1]);
      EveryRunKeeps(b, commands[..|commands| - 1]);
      PerformKeeps(earlier, commands[|commands| - 1]);
      var later := Run(b, commands);
      assert later.records[..|b.records|] == later.records[..|earlier.records|][..|b.records|];
    }
  }

  // ---- Answers ----------------------------------------------------------------------------------------------

  // A record of the log, at its place.
  ghost predicate Holds(b: Log, i: nat, n: nat, p: Proposal) {
    i < |b.records| && b.records[i].seqNo == n && b.records[i].made.content == p.content
  }

  // A successful call names a stored record with the proposal's content, old or its own.
  lemma AnswerHoldsTheContent(b: Log, c: Command) returns (i: nat)
    requires Sound(b) && Perform(b, c).1.Published?
    ensures Holds(Perform(b, c).0, i, Perform(b, c).1.seqNo, c.p)
    ensures Perform(b, c).0 == b || (i == |b.records|
        && Perform(b, c).0.records == b.records + [Record(b.sequence + 1, c.p)])
  {
    var found := Identified(b.records, c.p);
    IdentifiedHolds(b.records, c.p);
    if c.Resendable? && |found| == 1 {
      i := found[0];
    } else if c.p.key.Some? && Keyed(b.records, c.p.key.value).Some? {
      KeyedNames(b.records, c.p.key.value);
      i := Keyed(b.records, c.p.key.value).value;
    } else {
      i := |b.records|;
    }
  }

  // A refused call changes nothing.
  lemma RefusalChangesNothing(b: Log, c: Command)
    requires Perform(b, c).1.Refused?
    ensures Perform(b, c).0 == b
  {
  }

  lemma HoldsStays(before: Log, after: Log, i: nat, n: nat, p: Proposal)
    requires Grows(before, after) && Holds(before, i, n, p)
    ensures Holds(after, i, n, p)
  {
    assert after.records[i] == after.records[..|before.records|][i];
  }

  // A resend, whatever happened since, is answered with its original sequence and adds nothing exactly
  // when no other record took its identity; else it is refused as ambiguous.
  lemma ResendIsAnsweredExactly(b: Log, p: Proposal, commands: seq<Command>)
    requires Sound(b) && AppendOriginal(b, p).1.Published?
    ensures var later := Run(AppendOriginal(b, p).0, commands);
            AppendOriginal(later, p)
            == (later, if |Identified(later.records, p)| == 1 then AppendOriginal(b, p).1
                 else Refused(AmbiguousIdentity))
  {
    var first, n := AppendOriginal(b, p).0, AppendOriginal(b, p).1.seqNo;
    assert Perform(b, Resendable(p)) == AppendOriginal(b, p);
    var i := AnswerHoldsTheContent(b, Resendable(p));
    PerformKeeps(b, Resendable(p));
    EveryRunKeeps(first, commands);
    var later := Run(first, commands);
    HoldsStays(first, later, i, n, p);
    IdentifiedHolds(later.records, p);
    assert Identifies(later.records[i], p);
    assert i in Identified(later.records, p);
  }

  // Only a plain append can take an identity twice.
  predicate NeverPlain(commands: seq<Command>) {
    forall i :: 0 <= i < |commands| ==> !commands[i].Plain?
  }

  ghost predicate IdentityNamesOne(b: Log, p: Proposal) {
    |Identified(b.records, p)| == 1
  }

  lemma {:induction false} IdentityStaysOne(b: Log, p: Proposal, commands: seq<Command>)
    requires Sound(b) && IdentityNamesOne(b, p) && NeverPlain(commands)
    ensures IdentityNamesOne(Run(b, commands), p)
  {
    if commands != [] {
      var earlier := Run(b, commands[..|commands| - 1]);
      var c := commands[|commands| - 1];
      IdentityStaysOne(b, p, commands[..|commands| - 1]);
      EveryRunKeeps(b, commands[..|commands| - 1]);
      OthersKeepTheIdentity(earlier, p, c);
    }
  }

  lemma OthersKeepTheIdentity(b: Log, p: Proposal, c: Command)
    requires Sound(b) && IdentityNamesOne(b, p) && !c.Plain?
    ensures IdentityNamesOne(Perform(b, c).0, p)
  {
    var after := Perform(b, c).0;
    if after != b {
      var r := Record(b.sequence + 1, c.p);
      assert after.records == b.records + [r];
      assert after.records[..|b.records|] == b.records;
      assert Identified(b.records, c.p) == [];
      IdentifiedHolds(b.records, p);
      IdentifiedHolds(b.records, c.p);
      assert !Identifies(r, p) by {
        if Identifies(r, p) {
          var i := Identified(b.records, p)[0];
          assert Identifies(b.records[i], c.p);
        }
      }
    }
  }

  // So among resends and people's messages, a first success fixes the answer for ever.
  lemma ResendIsAnsweredForEver(b: Log, p: Proposal, commands: seq<Command>)
    requires Sound(b) && Identified(b.records, p) == [] && AppendOriginal(b, p).1.Published? && NeverPlain(commands)
    ensures var later := Run(AppendOriginal(b, p).0, commands);
            AppendOriginal(later, p) == (later, AppendOriginal(b, p).1)
  {
    var first := AppendOriginal(b, p).0;
    assert Perform(b, Resendable(p)) == AppendOriginal(b, p);
    PerformKeeps(b, Resendable(p));
    FirstTakesItsIdentity(b, p);
    IdentityStaysOne(first, p, commands);
    ResendIsAnsweredExactly(b, p, commands);
  }

  lemma FirstTakesItsIdentity(b: Log, p: Proposal)
    requires Sound(b) && Identified(b.records, p) == [] && AppendOriginal(b, p).1.Published?
    ensures IdentityNamesOne(AppendOriginal(b, p).0, p)
  {
    var first := AppendOriginal(b, p).0;
    assert Perform(b, Resendable(p)) == AppendOriginal(b, p);
    var i := AnswerHoldsTheContent(b, Resendable(p));
    IdentifiedHolds(b.records, p);
    if first == b {
      assert Identifies(b.records[i], p);
      assert false;
    } else {
      assert first.records[..|b.records|] == b.records;
    }
  }

  // In a sound log, a record with a key is the one the key names.
  lemma KeyNamesIt(b: Log, i: nat)
    requires KeysNameOne(b) && i < |b.records| && b.records[i].made.key.Some?
    ensures Keyed(b.records, b.records[i].made.key.value) == Some(i)
  {
    KeyedNames(b.records, b.records[i].made.key.value);
  }

  lemma KeyedAnswer(b: Log, p: Proposal) returns (i: nat)
    requires p.key.Some? && Append(b, p).1.Published?
    ensures Holds(Append(b, p).0, i, Append(b, p).1.seqNo, p)
    ensures Append(b, p).0.records[i].made.key == p.key
  {
    KeyedNames(b.records, p.key.value);
    i := if Keyed(b.records, p.key.value).Some? then Keyed(b.records, p.key.value).value else |b.records|;
  }

  // A keyed publication is answered with its original for ever, whatever else is appended.
  lemma KeyIsAnsweredForEver(b: Log, p: Proposal, commands: seq<Command>)
    requires Sound(b) && p.key.Some? && Append(b, p).1.Published?
    ensures var later := Run(Append(b, p).0, commands);
            Append(later, p) == (later, Append(b, p).1)
  {
    hide Run, Grows, Keyed;
    var first := Append(b, p).0;
    var i := KeyedAnswer(b, p);
    AppendKeeps(b, p);
    EveryRunKeeps(first, commands);
    var later := Run(first, commands);
    RecordStays(first, later, i);
    KeyNamesIt(later, i);
  }

  // A plain append takes its identity again, and resends under it are refused from then on.
  lemma PlainAppendMakesAmbiguous(b: Log, p: Proposal, q: Proposal, commands: seq<Command>)
    requires Sound(b) && IdentityNamesOne(b, p)
    requires q.content.sender == p.content.sender && q.content.messageId == p.content.messageId
    requires q.key.None? && DistinctRecipients(q)
    ensures AppendOriginal(Run(Append(b, q).0, commands), p).1 == Refused(AmbiguousIdentity)
  {
    hide Identified, Sound, Run, Grows;
    var after := Append(b, q).0;
    var i := OneUnderIt(b, p);
    AppendKeeps(b, q);
    EveryRunKeeps(after, commands);
    RecordStays(b, after, i);
    RecordStays(after, Run(after, commands), i);
    RecordStays(after, Run(after, commands), |b.records|);
    TwoUnderIt(Run(after, commands).records, p, i, |b.records|);
  }

  lemma OneUnderIt(b: Log, p: Proposal) returns (i: nat)
    requires IdentityNamesOne(b, p)
    ensures i < |b.records| && Identifies(b.records[i], p)
  {
    IdentifiedHolds(b.records, p);
    i := Identified(b.records, p)[0];
  }

  lemma RecordStays(before: Log, after: Log, i: nat)
    requires Grows(before, after) && i < |before.records|
    ensures i < |after.records| && after.records[i] == before.records[i]
  {
    assert after.records[i] == after.records[..|before.records|][i];
  }

  lemma TwoUnderIt(records: seq<Record>, p: Proposal, i: nat, j: nat)
    requires i < j < |records| && Identifies(records[i], p) && Identifies(records[j], p)
    ensures |Identified(records, p)| >= 2
  {
    IdentifiedHolds(records, p);
    TwoMembers(Identified(records, p), i, j);
  }

  lemma TwoMembers(s: seq<nat>, a: nat, b: nat)
    requires a in s && b in s && a != b
    ensures |s| >= 2
  {
  }
}
