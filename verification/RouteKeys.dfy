/** The bus's delivered messages and the index of routes they took (`BusRouteCounts` and `BusRouteKeys` of
    src/agent_comms/bus_route_counts.py).
 */
module RouteKeys {
  import opened Options

  // One delivered message. Without a recorded sender there is no lookup; the audience never changes.
  datatype Delivered = Delivered(seqNo: nat, target: string, sender: string, lookup: Option<string>, time: real,
                                 audience: set<string>)

  datatype Route = Route(target: string, sender: string, lookup: Option<string>)

  function RouteOf(d: Delivered): Route {
    Route(d.target, d.sender, d.lookup)
  }

  predicate InOrder(log: seq<Delivered>) {
    && (forall i :: 0 <= i < |log| ==> log[i].seqNo > 0)
    && (forall i, j :: 0 <= i < j < |log| ==> log[i].seqNo < log[j].seqNo)
  }

  // From each route to the sequence of its earliest message.
  type Index = map<Route, nat>

  // Insert, keeping a route that is there.
  function Inserted(index: Index, d: Delivered): Index {
    if RouteOf(d) in index then index else index[RouteOf(d) := d.seqNo]
  }

  function IndexOf(log: seq<Delivered>): Index {
    if log == [] then map[] else Inserted(IndexOf(log[..|log| - 1]), log[|log| - 1])
  }

  // A route is indexed exactly when some message took it, at the least sequence that did.
  lemma {:induction false} IndexHoldsFirst(log: seq<Delivered>, r: Route)
    requires InOrder(log)
    ensures r in IndexOf(log) <==> exists i :: 0 <= i < |log| && RouteOf(log[i]) == r
    ensures r in IndexOf(log) ==>
              && (forall i :: 0 <= i < |log| && RouteOf(log[i]) == r ==> IndexOf(log)[r] <= log[i].seqNo)
              && (exists i :: 0 <= i < |log| && RouteOf(log[i]) == r && IndexOf(log)[r] == log[i].seqNo)
  {
    if log != [] {
      var shorter := log[..|log| - 1];
      IndexHoldsFirst(shorter, r);
      assert forall i :: 0 <= i < |shorter| ==> shorter[i] == log[i];
      if r in IndexOf(shorter) {
        var i :| 0 <= i < |shorter| && RouteOf(shorter[i]) == r && IndexOf(shorter)[r] == shorter[i].seqNo;
        assert RouteOf(log[i]) == r && IndexOf(log)[r] == log[i].seqNo;
      } else if RouteOf(log[|log| - 1]) == r {
        assert forall i :: 0 <= i < |shorter| ==> RouteOf(log[i]) != r;
      }
    }
  }

  // The senders with an indexed route to some target by a revision.
  function Reaching(index: Index, targets: set<string>, through: int): set<string> {
    set r | r in index && r.target in targets && index[r] <= through :: r.sender
  }

  // The index answers what a scan of the log would.
  lemma ReachingIsTheScan(log: seq<Delivered>, targets: set<string>, through: int, sender: string)
    requires InOrder(log)
    ensures sender in Reaching(IndexOf(log), targets, through)
            <==> exists i :: 0 <= i < |log| && log[i].sender == sender && log[i].target in targets
                             && log[i].seqNo <= through
  {
    var index := IndexOf(log);
    if sender in Reaching(index, targets, through) {
      var r :| r in index && r.target in targets && index[r] <= through && r.sender == sender;
      IndexHoldsFirst(log, r);
      var i :| 0 <= i < |log| && RouteOf(log[i]) == r && index[r] == log[i].seqNo;
      assert log[i].sender == sender;
    }
    if i :| 0 <= i < |log| && log[i].sender == sender && log[i].target in targets && log[i].seqNo <= through {
      IndexHoldsFirst(log, RouteOf(log[i]));
      assert RouteOf(log[i]) in index && index[RouteOf(log[i])] <= through;
    }
  }

  // ---- The first recorded lookup of a sender -------------------------------------------------------------

  // The lookup of the first message of a sender to a target, through a revision, that has one.
  function FirstLookup(log: seq<Delivered>, target: string, sender: string, through: int): Option<string> {
    if log == [] then None
    else
      var earlier := FirstLookup(log[..|log| - 1], target, sender, through);
      var d := log[|log| - 1];
      if earlier.None? && d.target == target && d.sender == sender && d.seqNo <= through then d.lookup else earlier
  }

  // Once some message recorded a lookup, later revisions and later messages agree on the first one.
  lemma {:induction false} FirstLookupSettles(log: seq<Delivered>, i: nat, through: int, later: int)
    requires InOrder(log) && i < |log| && log[i].lookup.Some? && log[i].seqNo <= through <= later
    ensures var d := log[i];
            && FirstLookup(log, d.target, d.sender, through).Some?
            && FirstLookup(log, d.target, d.sender, through) == FirstLookup(log, d.target, d.sender, later)
  {
    var d, last := log[i], log[|log| - 1];
    var shorter := log[..|log| - 1];
    if i < |shorter| {
      FirstLookupSettles(shorter, i, through, later);
    } else if last.seqNo <= through {
      SameWhileWithin(shorter, d.target, d.sender, through, later);
    }
  }

  // Revisions at or past every message see the same.
  lemma {:induction false} SameWhileWithin(log: seq<Delivered>, target: string, sender: string, through: int,
                                           later: int)
    requires through <= later && forall i :: 0 <= i < |log| ==> log[i].seqNo <= through
    ensures FirstLookup(log, target, sender, through) == FirstLookup(log, target, sender, later)
  {
    if log != [] {
      SameWhileWithin(log[..|log| - 1], target, sender, through, later);
    }
  }

  lemma {:induction false} LaterMessagesKeepFirst(log: seq<Delivered>, more: seq<Delivered>, target: string,
                                                  sender: string, through: int)
    requires FirstLookup(log, target, sender, through).Some?
    ensures FirstLookup(log + more, target, sender, through) == FirstLookup(log, target, sender, through)
  {
    if more == [] {
      assert log + more == log;
    } else {
      LaterMessagesKeepFirst(log, more[..|more| - 1], target, sender, through);
      assert (log + more)[..|log + more| - 1] == log + more[..|more| - 1];
    }
  }
}
