/** Unseen counts grouped by actor and conversation, held between reads (`_grouped`, `unseen_counts` and
    `advanced_unseen_counts` of src/agent_comms/bus_route_counts.py).
 */
module UnseenCounts {
  import opened Options
  import opened RouteKeys
  import opened RouteCounts

  // ---- Sums over the log -----------------------------------------------------------------------------------

  type Weight = Delivered -> nat

  function Sum(log: seq<Delivered>, f: Weight): nat {
    if log == [] then 0 else Sum(log[..|log| - 1], f) + f(log[|log| - 1])
  }

  lemma {:induction false} SumSame(log: seq<Delivered>, f: Weight, g: Weight)
    requires forall i :: 0 <= i < |log| ==> f(log[i]) == g(log[i])
    ensures Sum(log, f) == Sum(log, g)
  {
    if log != [] {
      SumSame(log[..|log| - 1], f, g);
    }
  }

  lemma {:induction false} SumSplits(log: seq<Delivered>, f: Weight, g: Weight, h: Weight)
    requires forall i :: 0 <= i < |log| ==> f(log[i]) == g(log[i]) + h(log[i])
    ensures Sum(log, f) == Sum(log, g) + Sum(log, h)
  {
    if log != [] {
      SumSplits(log[..|log| - 1], f, g, h);
    }
  }

  lemma {:induction false} SumOfNothing(log: seq<Delivered>, f: Weight)
    requires forall i :: 0 <= i < |log| ==> f(log[i]) == 0
    ensures Sum(log, f) == 0
  {
    if log != [] {
      SumOfNothing(log[..|log| - 1], f);
    }
  }

  lemma {:induction false} SumOfParts(log: seq<Delivered>, more: seq<Delivered>, f: Weight)
    ensures Sum(log + more, f) == Sum(log, f) + Sum(more, f)
  {
    if more == [] {
      assert log + more == log;
    } else {
      SumOfParts(log, more[..|more| - 1], f);
      assert (log + more)[..|log + more| - 1] == log + more[..|more| - 1];
    }
  }

  // ---- Grouping ------------------------------------------------------------------------------------------------

  // How often each message counts for each actor, and the conversation an actor files it under.
  type Tally = (string, Delivered) -> nat
  type Filing = (string, string, string) -> string

  // One row of the grouped query.
  datatype RouteUnread = RouteUnread(actor: string, target: string, sender: string, count: nat)

  function ForRoute(t: Tally, row: RouteUnread): Weight {
    var RouteUnread(actor, target, sender, _) := row;
    (d: Delivered) => if d.target == target && d.sender == sender then t(actor, d) else 0
  }

  function ForConversation(t: Tally, filing: Filing, actor: string, c: string): Weight {
    (d: Delivered) => if filing(actor, d.sender, d.target) == c then t(actor, d) else 0
  }

  predicate SameGroup(a: RouteUnread, b: RouteUnread) {
    a.actor == b.actor && a.target == b.target && a.sender == b.sender
  }

  // The rows are one per actor, target and sender with anything to count, in any order.
  ghost predicate Grouping(rows: seq<RouteUnread>, log: seq<Delivered>, t: Tally, actors: set<string>) {
    && (forall i, j :: 0 <= i < j < |rows| ==> !SameGroup(rows[i], rows[j]))
    && (forall i :: 0 <= i < |rows| ==> rows[i].actor in actors && rows[i].count == Sum(log, ForRoute(t, rows[i]))
                                        && rows[i].count > 0)
    && (forall a, j :: 0 <= j < |log| && a in actors && t(a, log[j]) > 0
         ==> HasGroup(rows, a, log[j].target, log[j].sender))
  }

  predicate HasGroup(rows: seq<RouteUnread>, actor: string, target: string, sender: string) {
    exists i :: 0 <= i < |rows| && rows[i].actor == actor && rows[i].target == target && rows[i].sender == sender
  }

  lemma {:induction false} SumHolds(log: seq<Delivered>, f: Weight, i: nat)
    requires i < |log|
    ensures f(log[i]) <= Sum(log, f)
  {
    if i < |log| - 1 {
      SumHolds(log[..|log| - 1], f, i);
    }
  }

  type Group = (string, string, string)

  function GroupOf(row: RouteUnread): Group {
    (row.actor, row.target, row.sender)
  }

  function RowFor(log: seq<Delivered>, t: Tally, g: Group): RouteUnread {
    var row := RouteUnread(g.0, g.1, g.2, 0);
    row.(count := Sum(log, ForRoute(t, row)))
  }

  // Some order of given groups, each counted once.
  lemma {:induction false} RowsOf(log: seq<Delivered>, t: Tally, groups: set<Group>) returns (rows: seq<RouteUnread>)
    ensures forall i, j :: 0 <= i < j < |rows| ==> !SameGroup(rows[i], rows[j])
    ensures forall i :: 0 <= i < |rows| ==> GroupOf(rows[i]) in groups && rows[i] == RowFor(log, t, GroupOf(rows[i]))
    ensures forall g :: g in groups ==> HasGroup(rows, g.0, g.1, g.2)
    decreases |groups|
  {
    rows := [];
    if g :| g in groups {
      var rest := RowsOf(log, t, groups - {g});
      rows := rest + [RowFor(log, t, g)];
      forall h | h in groups ensures HasGroup(rows, h.0, h.1, h.2) {
        if h == g {
          assert GroupOf(rows[|rest|]) == g;
        } else {
          var i :| 0 <= i < |rest| && rest[i].actor == h.0 && rest[i].target == h.1 && rest[i].sender == h.2;
          assert rows[i] == rest[i];
        }
      }
    }
  }

  // The grouped query has an answer for every log: the groups some message weighs in.
  lemma GroupingExists(log: seq<Delivered>, t: Tally, actors: set<string>) returns (rows: seq<RouteUnread>)
    ensures Grouping(rows, log, t, actors)
  {
    var groups := set a, d | a in actors && d in log && t(a, d) > 0 :: (a, d.target, d.sender);
    rows := RowsOf(log, t, groups);
    forall i | 0 <= i < |rows|
      ensures rows[i].actor in actors && rows[i].count == Sum(log, ForRoute(t, rows[i])) && rows[i].count > 0
    {
      var g := GroupOf(rows[i]);
      var a, d :| a in actors && d in log && t(a, d) > 0 && g == (a, d.target, d.sender);
      var j :| 0 <= j < |log| && log[j] == d;
      SameRoute(t, rows[i], RouteUnread(g.0, g.1, g.2, 0));
      SumHolds(log, ForRoute(t, rows[i]), j);
    }
    forall a, j | 0 <= j < |log| && a in actors
        && t(a, log[j]) > 0 ensures HasGroup(rows, a, log[j].target, log[j].sender) {
      assert log[j] in log;
      assert (a, log[j].target, log[j].sender) in groups;
    }
  }

  // A row's count does not change what it counts.
  lemma SameRoute(t: Tally, a: RouteUnread, b: RouteUnread)
    requires SameGroup(a, b)
    ensures ForRoute(t, a) == ForRoute(t, b)
  {}

  type Counts = map<string, map<string, int>>

  function Get(counts: Counts, actor: string, c: string): int {
    if actor in counts && c in counts[actor] then counts[actor][c] else 0
  }

  function FiledUnder(filing: Filing, row: RouteUnread): string {
    filing(row.actor, row.sender, row.target)
  }

  // What the rows add to one conversation.
  function Added(rows: seq<RouteUnread>, filing: Filing, actor: string, c: string): nat {
    if rows == [] then 0
    else
      var row := rows[|rows| - 1];
      Added(rows[..|rows| - 1], filing, actor, c)
      + if row.actor == actor && FiledUnder(filing, row) == c then row.count else 0
  }

  ghost predicate Positive(counts: Counts) {
    forall a, c :: a in counts && c in counts[a] ==> counts[a][c] > 0
  }

  ghost predicate GroupedOnto(counts: Counts, filing: Filing, actors: set<string>, rows: seq<RouteUnread>,
                              counted: Counts) {
    && counts.Keys == actors && Positive(counts)
    && forall a, c :: a in actors ==> Get(counts, a, c) == Get(counted, a, c) + Added(rows, filing, a, c)
  }

  // Fold grouped rows onto the counts already held.
  method Grouped(filing: Filing, actors: set<string>, rows: seq<RouteUnread>, counted: Counts) returns (counts: Counts)
    requires forall i :: 0 <= i < |rows| ==> rows[i].actor in actors && rows[i].count > 0
    requires Positive(counted)
    ensures GroupedOnto(counts, filing, actors, rows, counted)
  {
    counts := map a | a in actors :: if a in counted then counted[a] else map[];
    for i := 0 to |rows|
      invariant GroupedOnto(counts, filing, actors, rows[..i], counted)
    {
      var row := rows[i];
      var conversation := FiledUnder(filing, row);
      ghost var before := counts;
      var held := counts[row.actor];
      counts := counts[row.actor := held[conversation := (if conversation in held then held[conversation]
          else 0) + row.count]];
      assert rows[..i + 1][..i] == rows[..i];
      forall a, c | a in actors ensures Get(counts, a, c) == Get(counted, a, c) + Added(rows[..i + 1], filing, a, c) {
        assert Get(counts, a, c) == Get(before, a, c) + if a == row.actor && c == conversation then row.count else 0;
      }
    }
    assert rows[..|rows|] == rows;
  }

  // ---- Groups and conversations count the same messages ---------------------------------------------------------

  // The rows of one conversation, each weighed by a log of its own.
  function AddedOver(rows: seq<RouteUnread>, log: seq<Delivered>, t: Tally, filing: Filing, actor: string,
                     c: string): nat {
    if rows == [] then 0
    else
      var row := rows[|rows| - 1];
      AddedOver(rows[..|rows| - 1], log, t, filing, actor, c)
      + if row.actor == actor && FiledUnder(filing, row) == c then Sum(log, ForRoute(t, row)) else 0
  }

  lemma {:induction false} AddedIsAddedOver(rows: seq<RouteUnread>, log: seq<Delivered>, t: Tally, filing: Filing,
                                            actor: string, c: string)
    requires forall i :: 0 <= i < |rows| ==> rows[i].count == Sum(log, ForRoute(t, rows[i]))
    ensures Added(rows, filing, actor, c) == AddedOver(rows, log, t, filing, actor, c)
  {
    if rows != [] {
      AddedIsAddedOver(rows[..|rows| - 1], log, t, filing, actor, c);
    }
  }

  predicate Holds(row: RouteUnread, actor: string, d: Delivered) {
    row.actor == actor && row.target == d.target && row.sender == d.sender
  }

  // One more message weighs in its one group.
  lemma {:induction false} OneMoreMessage(rows: seq<RouteUnread>, log: seq<Delivered>, d: Delivered, t: Tally,
                                          filing: Filing, actor: string, c: string)
    requires forall i, j :: 0 <= i < j < |rows| ==> !SameGroup(rows[i], rows[j])
    ensures AddedOver(rows, log + [d], t, filing, actor, c)
            == AddedOver(rows, log, t, filing, actor, c)
               + if HasGroup(rows, actor, d.target, d.sender) then ForConversation(t, filing, actor, c)(d) else 0
  {
    if rows != [] {
      var shorter, row := rows[..|rows| - 1], rows[|rows| - 1];
      OneMoreMessage(shorter, log, d, t, filing, actor, c);
      assert (log + [d])[..|log|] == log;
      assert Sum(log + [d], ForRoute(t, row)) == Sum(log, ForRoute(t, row)) + ForRoute(t, row)(d);
      GroupIsLastOrEarlier(rows, actor, d);
    }
  }

  lemma GroupIsLastOrEarlier(rows: seq<RouteUnread>, actor: string, d: Delivered)
    requires rows != [] && forall i, j :: 0 <= i < j < |rows| ==> !SameGroup(rows[i], rows[j])
    ensures HasGroup(rows, actor, d.target, d.sender)
            <==> Holds(rows[|rows| - 1], actor, d) || HasGroup(rows[..|rows| - 1], actor, d.target, d.sender)
    ensures !(Holds(rows[|rows| - 1], actor, d) && HasGroup(rows[..|rows| - 1], actor, d.target, d.sender))
  {
    var shorter, last := rows[..|rows| - 1], rows[|rows| - 1];
    assert forall i :: 0 <= i < |shorter| ==> shorter[i] == rows[i];
    if HasGroup(shorter, actor, d.target, d.sender) {
      var i :| 0 <= i < |shorter| && Holds(shorter[i], actor, d);
      assert !SameGroup(rows[i], last);
      assert Holds(rows[i], actor, d);
    }
    if HasGroup(rows, actor, d.target, d.sender) {
      var i :| 0 <= i < |rows| && Holds(rows[i], actor, d);
      assert i < |shorter| ==> Holds(shorter[i], actor, d);
    }
  }

  // Grouped rows add to a conversation what its messages weigh.
  lemma {:induction false} GroupsAddUp(rows: seq<RouteUnread>, log: seq<Delivered>, n: nat, t: Tally,
                                       actors: set<string>, filing: Filing, actor: string, c: string)
    requires Grouping(rows, log, t, actors) && actor in actors && n <= |log|
    ensures AddedOver(rows, log[..n], t, filing, actor, c) == Sum(log[..n], ForConversation(t, filing, actor, c))
  {
    if n == 0 {
      NothingAdded(rows, t, filing, actor, c);
    } else {
      hide AddedOver, ForRoute, SameGroup, HasGroup;
      var d, earlier := log[n - 1], log[..n - 1];
      GroupsAddUp(rows, log, n - 1, t, actors, filing, actor, c);
      assert log[..n] == earlier + [d] && log[..n][..n - 1] == earlier;
      OneMoreMessage(rows, earlier, d, t, filing, actor, c);
    }
  }

  lemma {:induction false} NothingAdded(rows: seq<RouteUnread>, t: Tally, filing: Filing, actor: string, c: string)
    ensures AddedOver(rows, [], t, filing, actor, c) == 0
  {
    if rows != [] {
      NothingAdded(rows[..|rows| - 1], t, filing, actor, c);
    }
  }

  lemma GroupingIsTheConversationSum(rows: seq<RouteUnread>, log: seq<Delivered>, t: Tally, actors: set<string>,
                                     filing: Filing, actor: string, c: string)
    requires Grouping(rows, log, t, actors) && actor in actors
    ensures Added(rows, filing, actor, c) == Sum(log, ForConversation(t, filing, actor, c))
  {
    AddedIsAddedOver(rows, log, t, filing, actor, c);
    GroupsAddUp(rows, log, |log|, t, actors, filing, actor, c);
    assert log[..|log|] == log;
  }

  // ---- Held counts are exact ------------------------------------------------------------------------

  // Counts through one revision, under the inputs they were counted with; at first there are none.
  datatype Held = Held(inputs: Option<Inputs>, through: nat, counts: Counts)

  const NOTHING_COUNTED := Held(None, 0, map[])

  // How an actor files a message under its aliases.
  type FilingRule = (map<string, string>, string, string, string) -> string

  function FilingOf(rule: FilingRule, aliases: map<string, string>): Filing {
    (actor, sender, target) => rule(aliases, actor, sender, target)
  }

  // Every actor's conversations with anything unseen, and how much.
  ghost predicate Tallies(counts: Counts, log: seq<Delivered>, t: Tally, actors: set<string>, filing: Filing) {
    && counts.Keys == actors && Positive(counts)
    && forall a, c :: a in actors ==> Get(counts, a, c) == Sum(log, ForConversation(t, filing, a, c))
  }

  function TallyOf(log: seq<Delivered>, inputs: Inputs, through: nat, after: nat): Tally {
    (actor, d) => TimesIn(log, inputs, through, after, actor, d)
  }

  function QueryOf(log: seq<Delivered>, inputs: Inputs, through: nat, after: nat): Tally {
    (actor, d) => RowTimes(log, IndexOf(log), inputs, through, after, actor, d)
  }

  ghost predicate Exact(rule: FilingRule, held: Held, log: seq<Delivered>) {
    && (held.inputs.None? ==> held == NOTHING_COUNTED)
    && (held.inputs.Some? ==>
          var inputs := held.inputs.value;
          Tallies(held.counts, log, TallyOf(log, inputs, held.through, 0), inputs.targets.Keys,
              FilingOf(rule, inputs.aliases)))
  }

  // Where counting resumes: from what is held under equal inputs, else from nothing.
  function Start(held: Held, inputs: Inputs): Held {
    if held.inputs == Some(inputs) then held else Held(Some(inputs), 0, map[])
  }

  // `advanced_unseen_counts`, for some rows its grouped query may answer.
  ghost predicate Advances(rule: FilingRule, held: Held, facts: Inputs, log: seq<Delivered>, last: nat,
                           rows: seq<RouteUnread>, next: Held) {
    var inputs := Bound(facts, IndexOf(log), last);
    var start := Start(held, inputs);
    && next.inputs == Some(inputs) && next.through == last
    && Grouping(rows, log, QueryOf(log, inputs, last, start.through), inputs.targets.Keys)
    && GroupedOnto(next.counts, FilingOf(rule, inputs.aliases), inputs.targets.Keys, rows, start.counts)
  }

  // Two intervals weigh together what the whole does, and the query weighs its interval.
  lemma IntervalsTogether(log: seq<Delivered>, inputs: Inputs, middle: nat, through: nat, filing: Filing,
                          actor: string, c: string)
    requires InOrder(log) && middle <= through
    ensures Sum(log, ForConversation(TallyOf(log, inputs, through, 0), filing, actor, c))
            == Sum(log, ForConversation(TallyOf(log, inputs, middle, 0), filing, actor, c))
               + Sum(log, ForConversation(QueryOf(log, inputs, through, middle), filing, actor, c))
  {
    var whole := ForConversation(TallyOf(log, inputs, through, 0), filing, actor, c);
    var earlier := ForConversation(TallyOf(log, inputs, middle, 0), filing, actor, c);
    var rest := ForConversation(QueryOf(log, inputs, through, middle), filing, actor, c);
    forall i | 0 <= i < |log| ensures whole(log[i]) == earlier(log[i]) + rest(log[i]) {
      RowTimesIsTimes(log, inputs, through, middle, actor, i);
    }
    SumSplits(log, whole, earlier, rest);
  }

  lemma NothingBeforeZero(log: seq<Delivered>, inputs: Inputs, filing: Filing, actor: string, c: string)
    ensures Sum(log, ForConversation(TallyOf(log, inputs, 0, 0), filing, actor, c)) == 0
  {
    SumOfNothing(log, ForConversation(TallyOf(log, inputs, 0, 0), filing, actor, c));
  }

  // Advancing gives exactly the counts of the whole log under the bound inputs.
  lemma AdvancedIsExact(rule: FilingRule, held: Held, facts: Inputs, log: seq<Delivered>, last: nat,
                        rows: seq<RouteUnread>, next: Held)
    requires InOrder(log) && Revision(log) <= last && held.through <= last && Exact(rule, held, log)
        && Advances(rule, held, facts, log, last, rows, next)
    ensures Exact(rule, next, log) && next.through == last
  {
    var inputs := Bound(facts, IndexOf(log), last);
    var start := Start(held, inputs);
    var filing := FilingOf(rule, inputs.aliases);
    var t := QueryOf(log, inputs, last, start.through);
    forall a, c | a in inputs.targets.Keys
      ensures Get(next.counts, a, c) == Sum(log, ForConversation(TallyOf(log, inputs, last, 0), filing, a, c))
    {
      GroupingIsTheConversationSum(rows, log, t, inputs.targets.Keys, filing, a, c);
      IntervalsTogether(log, inputs, start.through, last, filing, a, c);
      NothingBeforeZero(log, inputs, filing, a, c);
    }
  }

  // The plain count over every registered sender, with no index, interval or held value.
  function PlainTally(log: seq<Delivered>, facts: Inputs): Tally {
    (actor, d) => Times(log, facts, actor, d)
  }

  // Which is what a count from nothing with no index gives.
  lemma AdvancedIsThePlainCount(rule: FilingRule, held: Held, facts: Inputs, log: seq<Delivered>, last: nat,
                                rows: seq<RouteUnread>, next: Held)
    requires InOrder(log) && Revision(log) <= last && held.through <= last && Exact(rule, held, log)
        && Advances(rule, held, facts, log, last, rows, next)
    ensures Tallies(next.counts, log, PlainTally(log, facts), facts.targets.Keys, FilingOf(rule, facts.aliases))
  {
    AdvancedIsExact(rule, held, facts, log, last, rows, next);
    var inputs := Bound(facts, IndexOf(log), last);
    var filing := FilingOf(rule, facts.aliases);
    forall a, c | a in facts.targets.Keys
      ensures Get(next.counts, a, c) == Sum(log, ForConversation(PlainTally(log, facts), filing, a, c))
    {
      var bound := ForConversation(TallyOf(log, inputs, last, 0), filing, a, c);
      var plain := ForConversation(PlainTally(log, facts), filing, a, c);
      forall i | 0 <= i < |log| ensures bound(log[i]) == plain(log[i]) {
        BoundCountsTheSame(log, facts, last, a, i);
        RevisionIsLast(log, i);
      }
      SumSame(log, bound, plain);
    }
  }

  // The rows the query may answer when counting resumes from what is held.
  ghost predicate Answers(held: Held, facts: Inputs, log: seq<Delivered>, last: nat, rows: seq<RouteUnread>) {
    var inputs := Bound(facts, IndexOf(log), last);
    Grouping(rows, log, QueryOf(log, inputs, last, Start(held, inputs).through), inputs.targets.Keys)
  }

  // Whatever the log, there is one.
  lemma AnswersExist(held: Held, facts: Inputs, log: seq<Delivered>, last: nat) returns (rows: seq<RouteUnread>)
    ensures Answers(held, facts, log, last, rows)
  {
    var inputs := Bound(facts, IndexOf(log), last);
    rows := GroupingExists(log, QueryOf(log, inputs, last, Start(held, inputs).through), inputs.targets.Keys);
  }

  method AdvancedUnseenCounts(rule: FilingRule, held: Held, facts: Inputs, log: seq<Delivered>, last: nat,
                              rows: seq<RouteUnread>) returns (next: Held)
    requires InOrder(log) && Revision(log) <= last && held.through <= last && Exact(rule, held, log)
        && Answers(held, facts, log, last, rows)
    ensures Advances(rule, held, facts, log, last, rows, next)
    ensures Exact(rule, next, log) && next.through == last
    ensures Tallies(next.counts, log, PlainTally(log, facts), facts.targets.Keys, FilingOf(rule, facts.aliases))
  {
    var inputs := Bound(facts, IndexOf(log), last);
    var start := Start(held, inputs);
    var counts := Grouped(FilingOf(rule, inputs.aliases), inputs.targets.Keys, rows, start.counts);
    next := Held(Some(inputs), last, counts);
    AdvancedIsExact(rule, held, facts, log, last, rows, next);
    AdvancedIsThePlainCount(rule, held, facts, log, last, rows, next);
  }

  // Appending leaves held counts exact.
  lemma AppendingKeepsExact(rule: FilingRule, held: Held, log: seq<Delivered>, more: seq<Delivered>)
    requires InOrder(log + more) && Exact(rule, held, log)
    requires forall i :: 0 <= i < |more| ==> more[i].seqNo > held.through
    ensures Exact(rule, held, log + more)
  {
    if held.inputs.Some? {
      var inputs := held.inputs.value;
      var filing := FilingOf(rule, inputs.aliases);
      forall a, c | a in inputs.targets.Keys
        ensures Get(held.counts, a, c) == Sum(log + more,
            ForConversation(TallyOf(log + more, inputs, held.through, 0), filing, a, c))
      {
        HeldSumStays(log, more, inputs, held.through, filing, a, c);
      }
    }
  }

  lemma HeldSumStays(log: seq<Delivered>, more: seq<Delivered>, inputs: Inputs, through: nat, filing: Filing,
                     actor: string, c: string)
    requires InOrder(log + more) && forall i :: 0 <= i < |more| ==> more[i].seqNo > through
    ensures Sum(log + more, ForConversation(TallyOf(log + more, inputs, through, 0), filing, actor, c))
            == Sum(log, ForConversation(TallyOf(log, inputs, through, 0), filing, actor, c))
  {
    hide Times;
    var now := ForConversation(TallyOf(log + more, inputs, through, 0), filing, actor, c);
    var before := ForConversation(TallyOf(log, inputs, through, 0), filing, actor, c);
    SumOfParts(log, more, now);
    SumOfNothing(more, now);
    forall i | 0 <= i < |log| ensures now(log[i]) == before(log[i]) {
      LaterMessagesKeepTimes(log, more, inputs, actor, i);
    }
    SumSame(log, now, before);
  }

  // ---- Whole runs -----------------------------------------------------------------------------------

  // Messages arrive, then a read at the bus's last sequence advances the held counts under some registry and cursors.
  datatype Read = Read(arrived: seq<Delivered>, last: nat, facts: Inputs, rows: seq<RouteUnread>, held: Held)

  function Log(run: seq<Read>): seq<Delivered> {
    if run == [] then [] else Log(run[..|run| - 1]) + run[|run| - 1].arrived
  }

  function HeldAfter(run: seq<Read>): Held {
    if run == [] then NOTHING_COUNTED else run[|run| - 1].held
  }

  ghost predicate IsRun(rule: FilingRule, run: seq<Read>) {
    run != [] ==>
      var held, read := HeldAfter(run[..|run| - 1]), run[|run| - 1];
      && IsRun(rule, run[..|run| - 1])
      && Revision(Log(run)) <= read.last && held.through <= read.last
      && (forall i :: 0 <= i < |read.arrived| ==> read.arrived[i].seqNo > held.through)
      && Advances(rule, held, read.facts, Log(run), read.last, read.rows, read.held)
  }

  // Over every run, whatever is appended and however inputs change, each read's counts are the plain
  // counts of the whole log under that read's own facts.
  lemma {:induction false} EveryRunIsExact(rule: FilingRule, run: seq<Read>)
    requires InOrder(Log(run)) && IsRun(rule, run)
    ensures Exact(rule, HeldAfter(run), Log(run))
    ensures run != [] ==>
              var read := run[|run| - 1];
              Tallies(read.held.counts, Log(run), PlainTally(Log(run), read.facts), read.facts.targets.Keys,
                  FilingOf(rule, read.facts.aliases))
  {
    if run != [] {
      var earlier, read := run[..|run| - 1], run[|run| - 1];
      assert forall i :: 0 <= i < |Log(earlier)| ==> Log(run)[i] == Log(earlier)[i];
      EveryRunIsExact(rule, earlier);
      AppendingKeepsExact(rule, HeldAfter(earlier), Log(earlier), read.arrived);
      AdvancedIsExact(rule, HeldAfter(earlier), read.facts, Log(run), read.last, read.rows, read.held);
      AdvancedIsThePlainCount(rule, HeldAfter(earlier), read.facts, Log(run), read.last, read.rows, read.held);
    }
  }

  // A tally is one value, so two ways of counting that both tally agree.
  lemma TalliesAgree(a: Counts, b: Counts, log: seq<Delivered>, t: Tally, actors: set<string>, filing: Filing)
    requires Tallies(a, log, t, actors, filing) && Tallies(b, log, t, actors, filing)
    ensures a == b
  {
    forall x | x in actors ensures a[x] == b[x] {
      forall c ensures c in a[x] <==> c in b[x] {
        assert Get(a, x, c) == Get(b, x, c);
      }
      forall c | c in a[x] ensures a[x][c] == b[x][c] {
        assert Get(a, x, c) == Get(b, x, c);
      }
    }
  }
}
