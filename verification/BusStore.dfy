/** The bus file: its records and the tables derived from them in the same transaction (`Bus` of
    src/agent_comms/bus.py, the participant tables of src/agent_comms/bus_tables.py and the projections of
    src/agent_comms/bus_publication.py and src/agent_comms/messages.py).
 */
module BusStores {
  import opened Options
  import opened Publication
  import Activity
  import RouteKeys

  // A participant's position: its lookup and a record's sequence.
  type Position = (string, nat)

  // What the records make of each table.
  datatype Tables = Tables(
    sent: set<Position>,
    received: set<Position>,
    awaiting: map<Position, (string, bool)>,
    activity: map<string, Activity.Clocks>,
    lastSent: map<string, real>,
    routes: RouteKeys.Index)

  const NO_ROWS := Tables({}, {}, map[], map[], map[], map[])

  function ReceivedRows(recipients: seq<Recipient>, n: nat): set<Position> {
    if recipients == [] then {}
    else ReceivedRows(recipients[..|recipients| - 1], n) + {(recipients[|recipients| - 1].lookup, n)}
  }

  function AwaitingRows(awaiting: map<Position, (string, bool)>, recipients: seq<Recipient>, n: nat,
                        startsTurn: bool): map<Position, (string, bool)> {
    if recipients == [] then awaiting
    else
      var earlier, last := AwaitingRows(awaiting, recipients[..|recipients| - 1], n, startsTurn),
          recipients[|recipients| - 1];
      if last.awaits then earlier[(last.lookup, n) := (last.thread, startsTurn)] else earlier
  }

  function LookupOf(r: Record): Option<string> {
    if r.made.delivery.Some? then Some(r.made.delivery.value.lookup) else None
  }

  function AudienceOf(r: Record): set<string> {
    if r.made.delivery.Some?
    then set i | 0 <= i < |r.made.delivery.value.recipients| :: r.made.delivery.value.recipients[i].lookup
    else {}
  }

  // The route row of a record.
  function Routed(r: Record): RouteKeys.Delivered {
    RouteKeys.Delivered(r.seqNo, r.made.content.target, r.made.content.sender, LookupOf(r), r.made.content.time,
        AudienceOf(r))
  }

  function LastSent(lastSent: map<string, real>, r: Record): map<string, real> {
    if !r.made.conversational then lastSent
    else
      var sender, time := r.made.content.sender, r.made.content.time;
      lastSent[sender := if sender in lastSent then Activity.Max(lastSent[sender], time) else time]
  }

  // The rows one record adds.
  function Projected(t: Tables, r: Record): Tables {
    Tables(
      if r.made.delivery.Some? then t.sent + {(r.made.delivery.value.lookup, r.seqNo)} else t.sent,
      if r.made.delivery.Some? then t.received + ReceivedRows(r.made.delivery.value.recipients, r.seqNo)
          else t.received,
      if r.made.delivery.Some? then AwaitingRows(t.awaiting, r.made.delivery.value.recipients, r.seqNo,
          r.made.delivery.value.startsTurn) else t.awaiting,
      Activity.Raised(t.activity, r),
      LastSent(t.lastSent, r),
      if r.made.routed then RouteKeys.Inserted(t.routes, Routed(r)) else t.routes)
  }

  function TablesOf(records: seq<Record>): Tables {
    if records == [] then NO_ROWS else Projected(TablesOf(records[..|records| - 1]), records[|records| - 1])
  }

  class Bus {
    var records: seq<Record>
    var sequence: nat
    var sent: set<Position>
    var received: set<Position>
    var awaiting: map<Position, (string, bool)>
    var activity: map<string, Activity.Clocks>
    var lastSent: map<string, real>
    var routes: RouteKeys.Index

    function Value(): Log
      reads this
    {
      Log(records, sequence)
    }

    function Derived(): Tables
      reads this
    {
      Tables(sent, received, awaiting, activity, lastSent, routes)
    }

    ghost predicate Valid()
      reads this
    {
      Sound(Value()) && Derived() == TablesOf(records)
    }

    constructor ()
      ensures Valid() && Value() == EMPTY
    {
      records, sequence := [], 0;
      sent, received, awaiting, activity, lastSent, routes := {}, {}, map[], map[], map[], map[];
    }

    // Index a record's frozen audience.
    method ProjectAudience(r: Record)
      requires r.made.delivery.Some?
      modifies this`received, this`awaiting
      ensures received == old(received) + ReceivedRows(r.made.delivery.value.recipients, r.seqNo)
      ensures awaiting == AwaitingRows(old(awaiting), r.made.delivery.value.recipients, r.seqNo,
          r.made.delivery.value.startsTurn)
    {
      var d := r.made.delivery.value;
      for i := 0 to |d.recipients|
        invariant received == old(received) + ReceivedRows(d.recipients[..i], r.seqNo)
        invariant awaiting == AwaitingRows(old(awaiting), d.recipients[..i], r.seqNo, d.startsTurn)
      {
        var recipient := d.recipients[i];
        assert d.recipients[..i + 1][..i] == d.recipients[..i];
        received := received + {(recipient.lookup, r.seqNo)};
        if recipient.awaits {
          awaiting := awaiting[(recipient.lookup, r.seqNo) := (recipient.thread, d.startsTurn)];
        }
      }
      assert d.recipients[..|d.recipients|] == d.recipients;
    }

    // Insert the record under the next sequence, with every row derived from it.
    method Insert(p: Proposal) returns (answer: Answer)
      requires Valid() && (p.key.Some? ==> Keyed(records, p.key.value).None?)
      modifies this
      ensures Valid() && (Value(), answer) == Inserted(old(Value()), p)
    {
      hide Sound, DistinctRecipients, ReceivedRows, AwaitingRows, Activity.Raised, LastSent, RouteKeys.Inserted,
          Routed, Keyed;
      InsertedKeeps(Value(), p);
      if !DistinctRecipients(p) {
        return Refused(RepeatedRecipient);
      }
      var r := Record(sequence + 1, p);
      assert (records + [r])[..|records|] == records;
      records, sequence := records + [r], sequence + 1;
      if p.delivery.Some? {
        sent := sent + {(p.delivery.value.lookup, r.seqNo)};
        ProjectAudience(r);
      }
      activity := Activity.Raised(activity, r);
      lastSent := LastSent(lastSent, r);
      if p.routed {
        routes := RouteKeys.Inserted(routes, Routed(r));
      }
      answer := Published(r.seqNo);
    }

    // Append, or answer with the record the publication key names.
    method Append(p: Proposal) returns (answer: Answer)
      requires Valid()
      modifies this
      ensures Valid() && (Value(), answer) == Publication.Append(old(Value()), p)
    {
      if p.key.Some? {
        KeyedNames(records, p.key.value);
        var original := FindKey(p.key.value);
        if original.Some? {
          answer := Compare(original.value, p);
          return;
        }
      }
      answer := Insert(p);
    }

    method FindKey(key: string) returns (original: Option<nat>)
      ensures original == Keyed(records, key)
    {
      var i := |records|;
      assert records[..i] == records;
      while i > 0
        invariant 0 <= i <= |records| && Keyed(records, key) == Keyed(records[..i], key)
      {
        assert records[..i][..i - 1] == records[..i - 1];
        i := i - 1;
        if records[i].made.key == Some(key) {
          return Some(i);
        }
      }
      return None;
    }

    method Compare(i: nat, p: Proposal) returns (answer: Answer)
      requires i < |records|
      ensures (Value(), answer) == Original(Value(), i, p)
    {
      if records[i].made.content != p.content {
        return Refused(DifferentContent);
      }
      return Published(records[i].seqNo);
    }

    // The positions of an identity.
    method Select(p: Proposal) returns (found: seq<nat>)
      ensures found == Identified(records, p)
    {
      found := [];
      for i := 0 to |records|
        invariant found == Identified(records[..i], p)
      {
        assert records[..i + 1][..i] == records[..i];
        if Identifies(records[i], p) {
          found := found + [i];
        }
      }
      assert records[..|records|] == records;
    }

    // A resendable message; a repeat is answered by the record it repeats.
    method AppendOriginal(p: Proposal) returns (answer: Answer)
      requires Valid()
      modifies this
      ensures Valid() && (Value(), answer) == Publication.AppendOriginal(old(Value()), p)
    {
      var found := Select(p);
      IdentifiedHolds(records, p);
      if |found| == 0 {
        answer := Append(p);
      } else if |found| == 1 {
        answer := Compare(found[0], p);
      } else {
        answer := Refused(AmbiguousIdentity);
      }
    }

    // Publish a person's message under an unused identity.
    method AppendHuman(p: Proposal) returns (answer: Answer)
      requires Valid()
      modifies this
      ensures Valid() && (Value(), answer) == Publication.AppendHuman(old(Value()), p)
    {
      var found := Select(p);
      if found != [] {
        return Refused(IdentityUsed);
      }
      answer := Append(p);
    }
  }

  // ---- What the tables hold -------------------------------------------------------------------------------

  lemma {:induction false} ReceivedRowsHold(recipients: seq<Recipient>, n: nat, x: Position)
    ensures x in ReceivedRows(recipients, n) <==> x.1 == n && exists i :: 0 <= i < |recipients|
                                                                          && recipients[i].lookup == x.0
  {
    if recipients != [] {
      ReceivedRowsHold(recipients[..|recipients| - 1], n, x);
      assert forall i :: 0 <= i < |recipients| - 1 ==> recipients[..|recipients| - 1][i] == recipients[i];
    }
  }

  ghost predicate Sends(r: Record, x: Position) {
    r.seqNo == x.1 && LookupOf(r) == Some(x.0)
  }

  ghost predicate Reaches(r: Record, x: Position) {
    r.seqNo == x.1 && x.0 in AudienceOf(r)
  }

  // The participant tables are the frozen audiences: who sent and who received each record, and no more.
  lemma {:induction false} ParticipantsAreFrozen(records: seq<Record>, x: Position)
    ensures x in TablesOf(records).sent <==> exists i :: 0 <= i < |records| && Sends(records[i], x)
    ensures x in TablesOf(records).received <==> exists i :: 0 <= i < |records| && Reaches(records[i], x)
  {
    if records != [] {
      var shorter, r := records[..|records| - 1], records[|records| - 1];
      ParticipantsAreFrozen(shorter, x);
      assert forall i :: 0 <= i < |shorter| ==> shorter[i] == records[i];
      RowOfOne(r, x);
      assert x in TablesOf(records).sent <==> x in TablesOf(shorter).sent || Sends(r, x);
      assert x in TablesOf(records).received <==> x in TablesOf(shorter).received || Reaches(r, x);
    }
  }

  lemma RowOfOne(r: Record, x: Position)
    ensures r.made.delivery.Some? ==> (x in ReceivedRows(r.made.delivery.value.recipients, r.seqNo) <==> Reaches(r, x))
  {
    if r.made.delivery.Some? {
      ReceivedRowsHold(r.made.delivery.value.recipients, r.seqNo, x);
    }
  }

  // A recipient of a record that awaits its answer, as the record froze it.
  ghost predicate Awaits(r: Record, x: Position, row: (string, bool)) {
    && r.seqNo == x.1 && r.made.delivery.Some?
    && exists j :: 0 <= j < |r.made.delivery.value.recipients|
                   && r.made.delivery.value.recipients[j] == Recipient(x.0, row.0, true)
                        && r.made.delivery.value.startsTurn == row.1
  }

  ghost predicate AwaitsIn(recipients: seq<Recipient>, x: Position, row: (string, bool), startsTurn: bool) {
    startsTurn == row.1 && exists j :: 0 <= j < |recipients| && recipients[j] == Recipient(x.0, row.0, true)
  }

  predicate Holds(awaiting: map<Position, (string, bool)>, x: Position, row: (string, bool)) {
    x in awaiting && awaiting[x] == row
  }

  lemma {:induction false} AwaitingRowsHold(awaiting: map<Position, (string, bool)>, recipients: seq<Recipient>,
                                            n: nat, startsTurn: bool, x: Position, row: (string, bool))
    requires forall i, j :: 0 <= i < j < |recipients| ==> recipients[i].lookup != recipients[j].lookup
    requires x.1 == n ==> x !in awaiting
    ensures Holds(AwaitingRows(awaiting, recipients, n, startsTurn), x, row)
            <==> Holds(awaiting, x, row) || (x.1 == n && AwaitsIn(recipients, x, row, startsTurn))
  {
    if recipients != [] {
      var shorter, last := recipients[..|recipients| - 1], recipients[|recipients| - 1];
      AwaitingRowsHold(awaiting, shorter, n, startsTurn, x, row);
      assert forall i :: 0 <= i < |shorter| ==> shorter[i] == recipients[i];
      if AwaitsIn(recipients, x, row, startsTurn) {
        var j :| 0 <= j < |recipients| && recipients[j] == Recipient(x.0, row.0, true);
        assert j < |shorter| ==> shorter[j] == Recipient(x.0, row.0, true);
      }
      if AwaitsIn(shorter, x, row, startsTurn) {
        var j :| 0 <= j < |shorter| && shorter[j] == Recipient(x.0, row.0, true);
        assert recipients[j] == Recipient(x.0, row.0, true);
        assert recipients[j].lookup != last.lookup;
      }
    }
  }

  // The answer table holds exactly the awaited answers of the log.
  lemma {:induction false} AwaitingIsFrozen(b: Log, n: nat, x: Position, row: (string, bool))
    requires Sound(b) && n <= |b.records|
    ensures Holds(TablesOf(b.records[..n]).awaiting, x, row) <==> exists i :: 0 <= i < n && Awaits(b.records[i], x, row)
    ensures x in TablesOf(b.records[..n]).awaiting ==> exists i :: 0 <= i < n && b.records[i].seqNo == x.1
  {
    if n > 0 {
      var shorter, r := b.records[..n - 1], b.records[n - 1];
      assert b.records[..n][..n - 1] == shorter;
      AwaitingIsFrozen(b, n - 1, x, row);
      var awaiting := TablesOf(shorter).awaiting;
      if x in awaiting {
        AwaitingIsFrozen(b, n - 1, x, awaiting[x]);
      }
      if r.made.delivery.Some? {
        var d := r.made.delivery.value;
        assert x.1 == r.seqNo ==> x !in awaiting;
        AwaitingRowsHold(awaiting, d.recipients, r.seqNo, d.startsTurn, x, row);
        AwaitingKeys(awaiting, d.recipients, r.seqNo, d.startsTurn, x);
        assert Awaits(r, x, row) <==> x.1 == r.seqNo && AwaitsIn(d.recipients, x, row, d.startsTurn);
      }
    }
  }

  lemma {:induction false} AwaitingKeys(awaiting: map<Position, (string, bool)>, recipients: seq<Recipient>, n: nat,
                                        startsTurn: bool, x: Position)
    ensures x in AwaitingRows(awaiting, recipients, n, startsTurn) ==> x in awaiting || x.1 == n
  {
    if recipients != [] {
      AwaitingKeys(awaiting, recipients[..|recipients| - 1], n, startsTurn, x);
    }
  }

  // Activity and route tables are the ones the log gives.
  lemma {:induction false} MaximaAndRoutes(records: seq<Record>)
    ensures TablesOf(records).activity == Activity.IndexOf(records)
    ensures TablesOf(records).routes == RouteKeys.IndexOf(RoutedOf(records))
  {
    if records != [] {
      var shorter, r := records[..|records| - 1], records[|records| - 1];
      MaximaAndRoutes(shorter);
      if r.made.routed {
        assert RoutedOf(records)[..|RoutedOf(shorter)|] == RoutedOf(shorter);
      } else {
        assert RoutedOf(records) == RoutedOf(shorter);
      }
    }
  }

  function RoutedOf(records: seq<Record>): seq<RouteKeys.Delivered> {
    if records == [] then []
    else RoutedOf(records[..|records| - 1]) + if records[|records| - 1].made.routed
        then [Routed(records[|records| - 1])] else []
  }

  lemma {:induction false} RoutedInOrder(records: seq<Record>, b: Log)
    requires Increasing(b) && records <= b.records
    ensures RouteKeys.InOrder(RoutedOf(records))
    ensures forall i :: 0 <= i < |RoutedOf(records)| ==>
                          RoutedOf(records)[i].seqNo <= if records == [] then 0 else records[|records| - 1].seqNo
  {
    if records != [] {
      var shorter := records[..|records| - 1];
      RoutedInOrder(shorter, b);
      assert records[|records| - 1] == b.records[|records| - 1];
      if shorter != [] {
        assert shorter[|shorter| - 1] == b.records[|shorter| - 1];
      }
    }
  }

  // Who can reach some targets, by the route table, is who did so in the log.
  lemma RouteTableIsTheScan(b: Log, targets: set<string>, through: int, sender: string)
    requires Sound(b)
    ensures var log := RoutedOf(b.records);
            sender in RouteKeys.Reaching(TablesOf(b.records).routes, targets, through)
            <==> exists i :: 0 <= i < |log| && log[i].sender == sender && log[i].target in targets
                             && log[i].seqNo <= through
  {
    MaximaAndRoutes(b.records);
    RoutedInOrder(b.records, b);
    RouteKeys.ReachingIsTheScan(RoutedOf(b.records), targets, through, sender);
  }

  // A sender's clock is the largest time of its conversational messages.
  lemma {:induction false} LastSentIsLatest(records: seq<Record>, sender: string)
    ensures sender in TablesOf(records).lastSent <==> exists i :: 0 <= i < |records| && Speaks(records[i], sender)
    ensures sender in TablesOf(records).lastSent ==>
              && (exists i :: 0 <= i < |records| && Speaks(records[i], sender)
                   && records[i].made.content.time == TablesOf(records).lastSent[sender])
              && (forall i :: 0 <= i < |records| && Speaks(records[i], sender)
                   ==> records[i].made.content.time <= TablesOf(records).lastSent[sender])
  {
    if records != [] {
      var shorter, r := records[..|records| - 1], records[|records| - 1];
      LastSentIsLatest(shorter, sender);
      assert forall i :: 0 <= i < |shorter| ==> shorter[i] == records[i];
      if sender in TablesOf(shorter).lastSent {
        var i :| 0 <= i < |shorter| && Speaks(shorter[i], sender)
            && shorter[i].made.content.time == TablesOf(shorter).lastSent[sender];
        assert Speaks(records[i], sender);
      } else {
        assert forall i :: 0 <= i < |shorter| ==> !Speaks(records[i], sender);
      }
    }
  }

  predicate Speaks(r: Record, sender: string) {
    r.made.conversational && r.made.content.sender == sender
  }
}
