/** Unseen deliveries per actor and conversation, advanced by counting only appended messages
    (`RouteCounts` of src/agent_comms/bus_route_counts.py).
 */
module RouteCounts {
  import opened Options
  import opened RouteKeys
  import Unread

  // Every value a count reads besides its sequence interval.
  datatype Inputs = Inputs(
    cursors: map<string, seq<Unread.CursorRow>>,
    targets: map<string, set<string>>,
    recipients: map<string, string>,
    senders: map<string, seq<Option<string>>>,
    unrecorded: seq<string>,
    births: map<string, Option<real>>,
    aliases: map<string, string>,
    unaddressed: map<string, Option<real>>,
    addressed: map<string, Option<real>>)

  // The last delivered sequence; the bus may have later rows that deliver nothing.
  function Revision(log: seq<Delivered>): nat {
    if log == [] then 0 else log[|log| - 1].seqNo
  }

  function AllTargets(targets: map<string, set<string>>): set<string> {
    set a, t | a in targets && t in targets[a] :: t
  }

  // Bind only the senders whose routes reach the targets, and their births.
  function Bound(facts: Inputs, index: Index, through: int): Inputs {
    var routed := Reaching(index, AllTargets(facts.targets), through);
    facts.(senders := map s | s in facts.senders && s in routed :: facts.senders[s],
           births := map s | s in facts.births
               && ((s in facts.senders && s in routed) || s in facts.unrecorded) :: facts.births[s])
  }

  // ---- Which requests one message makes of one actor ------------------------------------------------------

  function CursorsOf(inputs: Inputs, actor: string): seq<Unread.CursorRow> {
    if actor in inputs.cursors then inputs.cursors[actor] else []
  }

  function MessageOf(d: Delivered): Unread.Message {
    Unread.Message(d.seqNo, d.target, d.sender, "")
  }

  // Above every broad cursor on a target or the whole bus.
  predicate AboveFloor(cursors: seq<Unread.CursorRow>, n: nat, target: string) {
    forall i :: 0 <= i < |cursors| && cursors[i].sender == ""
                && (cursors[i].target == target || cursors[i].target == "")
                ==> n > cursors[i].cursor.highWater
  }

  // The later of two times; none when either is missing.
  function Later(a: Option<real>, b: Option<real>): Option<real> {
    if a.None? || b.None? then None else if a.value < b.value then b else a
  }

  predicate Since(d: Delivered, time: Option<real>) {
    time.Some? && d.time >= time.value
  }

  predicate FromAnother(inputs: Inputs, actor: string, d: Delivered) {
    (if d.sender in inputs.aliases then inputs.aliases[d.sender] else d.sender) != actor
  }

  // The query's two parts: a message of the actor's frozen audience, found through the received table...
  predicate AddressedRequest(inputs: Inputs, actor: string, d: Delivered) {
    && actor in inputs.recipients && inputs.recipients[actor] in d.audience
    && AboveFloor(CursorsOf(inputs, actor), d.seqNo, "")
    && actor in inputs.targets && d.target in inputs.targets[actor]
    && d.sender in inputs.births && actor in inputs.addressed
    && Since(d, Later(inputs.births[d.sender], inputs.addressed[actor]))
    && FromAnother(inputs, actor, d)
    && AboveFloor(CursorsOf(inputs, actor), d.seqNo, d.target)
  }

  // ...and a message on a route to the actor's targets that did not address it.
  predicate UnaddressedRequest(inputs: Inputs, actor: string, d: Delivered) {
    && actor in inputs.targets && d.target in inputs.targets[actor]
    && actor in inputs.recipients
    && actor in inputs.unaddressed && inputs.unaddressed[actor].Some?
    && FromAnother(inputs, actor, d)
    && d.sender in inputs.births
    && Since(d, Later(inputs.births[d.sender], inputs.unaddressed[actor]))
    && AboveFloor(CursorsOf(inputs, actor), d.seqNo, d.target)
    && inputs.recipients[actor] !in d.audience
  }

  // What the two parts mean: someone else's message to one of the actor's targets, sent after its
  // sender's birth and after the actor began to count what does, or does not, address it.
  predicate Delivers(inputs: Inputs, actor: string, d: Delivered) {
    && actor in inputs.targets && d.target in inputs.targets[actor] && FromAnother(inputs, actor, d)
    && d.sender in inputs.births && Since(d, inputs.births[d.sender])
    && actor in inputs.recipients
    && if inputs.recipients[actor] in d.audience
       then actor in inputs.addressed && Since(d, inputs.addressed[actor])
       else actor in inputs.unaddressed && Since(d, inputs.unaddressed[actor])
  }

  // An actor's cursors leave the message unread, as often as it joins them.
  function UnreadTimes(inputs: Inputs, actor: string, d: Delivered): nat {
    if AboveFloor(CursorsOf(inputs, actor), d.seqNo, d.target)
        then Unread.TimesCounted(CursorsOf(inputs, actor), MessageOf(d)) else 0
  }

  // The floor only narrows the search: keyed cursors count nothing at or below it.
  lemma FloorIsImplied(inputs: Inputs, actor: string, d: Delivered, channels: Unread.Channels)
    requires Unread.Keyed(channels, CursorsOf(inputs, actor)) && Unread.Addressed(MessageOf(d))
    ensures UnreadTimes(inputs, actor, d) == Unread.TimesCounted(CursorsOf(inputs, actor), MessageOf(d))
    ensures UnreadTimes(inputs, actor, d)
        == if Unread.UnreadBy(channels, Unread.ByKey(CursorsOf(inputs, actor)), MessageOf(d)) then 1 else 0
  {
    var cursors, m := CursorsOf(inputs, actor), MessageOf(d);
    Unread.CountedOnce(channels, cursors, m);
    if !AboveFloor(cursors, d.seqNo, d.target) {
      var i :| 0 <= i < |cursors| && cursors[i].sender == ""
          && (cursors[i].target == d.target || cursors[i].target == "")
               && d.seqNo <= cursors[i].cursor.highWater;
      assert Unread.WellKeyed(channels, cursors[i]);
      Unread.ByKeyHolds(cursors, Unread.KeyOf(cursors[i]));
      assert Unread.KeyOf(cursors[i]) == Unread.WHOLE_BUS || Unread.KeyOf(cursors[i]) == Unread.MessageKey(channels, m);
    }
  }

  predicate Recent(log: seq<Delivered>, after: nat, through: nat, r: Route) {
    exists i :: 0 <= i < |log| && RouteOf(log[i]) == r && after < log[i].seqNo <= through
  }

  // Route keys that join the message: its sender's indexed ones, and unrecorded ones whose first recorded
  // lookup is the message's.
  function KeyMatches(log: seq<Delivered>, index: Index, inputs: Inputs, through: nat, after: nat, d: Delivered): nat {
    (if && d.sender in inputs.senders
        && RouteOf(d) in index && index[RouteOf(d)] <= through
        && (after == 0 || Recent(log, after, through, RouteOf(d)))
     then multiset(inputs.senders[d.sender])[d.lookup] else 0)
    + (if d.lookup.Some? && FirstLookup(log, d.target, d.sender, through) == d.lookup
       then multiset(inputs.unrecorded)[d.sender] else 0)
  }

  // A join gives every pair.
  function Product(a: nat, b: nat): nat {
    a * b
  }

  // How often the query counts a message for an actor: its requests, each joined to the actor's cursors.
  function RowTimes(log: seq<Delivered>, index: Index, inputs: Inputs, through: nat, after: nat, actor: string,
                    d: Delivered): nat {
    if after < d.seqNo <= through then
      var matches := KeyMatches(log, index, inputs, through, after, d);
      Product((if AddressedRequest(inputs, actor, d) then matches else 0) + (if UnaddressedRequest(inputs, actor, d)
          then matches else 0),
              Unread.TimesCounted(CursorsOf(inputs, actor), MessageOf(d)))
    else 0
  }

  // The same without index or interval: a message's matches are a fact of the log and the inputs.
  function Matches(log: seq<Delivered>, inputs: Inputs, d: Delivered): nat {
    (if d.sender in inputs.senders then multiset(inputs.senders[d.sender])[d.lookup] else 0)
    + (if d.lookup.Some? && FirstLookup(log, d.target, d.sender, Revision(log)) == d.lookup
       then multiset(inputs.unrecorded)[d.sender] else 0)
  }

  function Times(log: seq<Delivered>, inputs: Inputs, actor: string, d: Delivered): nat {
    if Delivers(inputs, actor, d) then Product(Matches(log, inputs, d), UnreadTimes(inputs, actor, d)) else 0
  }

  function TimesIn(log: seq<Delivered>, inputs: Inputs, through: nat, after: nat, actor: string, d: Delivered): nat {
    if after < d.seqNo <= through then Times(log, inputs, actor, d) else 0
  }

  lemma RevisionIsLast(log: seq<Delivered>, i: nat)
    requires InOrder(log) && i < |log|
    ensures log[i].seqNo <= Revision(log)
  {
  }

  // The indexed, bounded query counts each message in its interval as the plain definition does.
  lemma RowTimesIsTimes(log: seq<Delivered>, inputs: Inputs, through: nat, after: nat, actor: string, i: nat)
    requires InOrder(log) && i < |log|
    ensures RowTimes(log, IndexOf(log), inputs, through, after, actor, log[i])
        == TimesIn(log, inputs, through, after, actor, log[i])
  {
    hide Delivers, AddressedRequest, UnaddressedRequest, KeyMatches, Matches, AboveFloor, InOrder;
    var d := log[i];
    if after < d.seqNo <= through {
      KeyMatchesIsMatches(log, inputs, through, after, i);
      RequestsAreDeliveries(inputs, actor, d);
    }
  }

  // The parts are exclusive, and together they are the deliveries above the floor.
  lemma RequestsAreDeliveries(inputs: Inputs, actor: string, d: Delivered)
    ensures !(AddressedRequest(inputs, actor, d) && UnaddressedRequest(inputs, actor, d))
    ensures AddressedRequest(inputs, actor, d) || UnaddressedRequest(inputs, actor, d)
            <==> Delivers(inputs, actor, d) && AboveFloor(CursorsOf(inputs, actor), d.seqNo, d.target)
  {
  }

  lemma KeyMatchesIsMatches(log: seq<Delivered>, inputs: Inputs, through: nat, after: nat, i: nat)
    requires InOrder(log) && i < |log| && after < log[i].seqNo <= through
    ensures KeyMatches(log, IndexOf(log), inputs, through, after, log[i]) == Matches(log, inputs, log[i])
  {
    var d := log[i];
    IndexHoldsFirst(log, RouteOf(d));
    assert Recent(log, after, through, RouteOf(d));
    if d.lookup.Some? {
      RevisionIsLast(log, i);
      if through <= Revision(log) {
        FirstLookupSettles(log, i, through, Revision(log));
      } else {
        FirstLookupSettles(log, i, Revision(log), through);
      }
    }
  }

  // Binding only the senders that reach the targets changes no count.
  lemma BoundCountsTheSame(log: seq<Delivered>, facts: Inputs, through: nat, actor: string, i: nat)
    requires InOrder(log) && i < |log| && Revision(log) <= through
    ensures Times(log, Bound(facts, IndexOf(log), through), actor, log[i]) == Times(log, facts, actor, log[i])
  {
    hide Matches, Delivers, UnreadTimes, Bound, Revision, InOrder;
    BoundDelivers(log, facts, through, actor, i);
    BoundMatches(log, facts, through, i, actor);
    BoundUnread(log, facts, through, actor, i);
  }

  lemma BoundUnread(log: seq<Delivered>, facts: Inputs, through: nat, actor: string, i: nat)
    requires i < |log|
    ensures UnreadTimes(Bound(facts, IndexOf(log), through), actor, log[i]) == UnreadTimes(facts, actor, log[i])
  {
  }

  lemma BoundReaches(log: seq<Delivered>, facts: Inputs, through: nat, actor: string, i: nat)
    requires InOrder(log) && i < |log| && Revision(log) <= through && actor in facts.targets
        && log[i].target in facts.targets[actor]
    ensures log[i].sender in Reaching(IndexOf(log), AllTargets(facts.targets), through)
  {
    RevisionIsLast(log, i);
    assert log[i].target in AllTargets(facts.targets);
    ReachingIsTheScan(log, AllTargets(facts.targets), through, log[i].sender);
  }

  lemma BoundMatches(log: seq<Delivered>, facts: Inputs, through: nat, i: nat, actor: string)
    requires InOrder(log) && i < |log| && Revision(log) <= through
    ensures Delivers(facts, actor, log[i]) ==>
              Matches(log, Bound(facts, IndexOf(log), through), log[i]) == Matches(log, facts, log[i])
  {
    if Delivers(facts, actor, log[i]) {
      BoundReaches(log, facts, through, actor, i);
    }
  }

  // A sender left unbound has nothing to match.
  lemma BoundDelivers(log: seq<Delivered>, facts: Inputs, through: nat, actor: string, i: nat)
    requires InOrder(log) && i < |log| && Revision(log) <= through
    ensures Delivers(Bound(facts, IndexOf(log), through), actor, log[i]) ==> Delivers(facts, actor, log[i])
    ensures Delivers(facts, actor, log[i]) ==>
              Delivers(Bound(facts, IndexOf(log), through), actor, log[i]) || Matches(log, facts, log[i]) == 0
  {
    if Delivers(facts, actor, log[i]) {
      BoundReaches(log, facts, through, actor, i);
      if log[i].sender !in facts.senders && log[i].sender !in facts.unrecorded {
        assert Matches(log, facts, log[i]) == 0;
      }
    }
  }

  // Later messages leave a message's count as it is, also when they bring its sender's first lookup.
  lemma LaterMessagesKeepTimes(log: seq<Delivered>, more: seq<Delivered>, inputs: Inputs, actor: string, i: nat)
    requires InOrder(log + more) && i < |log|
    ensures Times(log + more, inputs, actor, log[i]) == Times(log, inputs, actor, log[i])
  {
    var d, all := log[i], log + more;
    assert all[i] == d;
    assert InOrder(log) by { assert forall j :: 0 <= j < |log| ==> log[j] == all[j]; }
    if d.lookup.Some? {
      RevisionIsLast(log, i);
      RevisionIsLast(all, i);
      RevisionGrows(log, more);
      FirstLookupSettles(all, i, Revision(log), Revision(all));
      FirstLookupSettles(log, i, Revision(log), Revision(log));
      LaterMessagesKeepFirst(log, more, d.target, d.sender, Revision(log));
    }
    assert Matches(all, inputs, d) == Matches(log, inputs, d);
  }

  lemma RevisionGrows(log: seq<Delivered>, more: seq<Delivered>)
    requires InOrder(log + more)
    ensures Revision(log) <= Revision(log + more)
    ensures forall i :: 0 <= i < |more| ==> more[i].seqNo > Revision(log)
  {
    forall i | 0 <= i < |more| ensures more[i].seqNo > Revision(log) {
      LaterIsAbove(log, more, i);
    }
    if more == [] {
      assert log + more == log;
    } else {
      assert (log + more)[|log + more| - 1] == more[|more| - 1];
    }
  }

  lemma LaterIsAbove(log: seq<Delivered>, more: seq<Delivered>, i: nat)
    requires InOrder(log + more) && i < |more|
    ensures more[i].seqNo > Revision(log)
  {
    assert (log + more)[|log| + i] == more[i];
    if log != [] {
      assert (log + more)[|log| - 1] == log[|log| - 1];
    }
  }
}
