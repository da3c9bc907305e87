/** The layer of each unit (tools/module_layers.py): a claimed unit keeps its claim, every other
    unit takes the highest layer it imports, by a loop over the import edges until nothing changes.
 */
module Layers {

  datatype Layer = Wire | Registry | Coordination | Context | Turns | Runtime | UiModel | Cli | Team

  type Unit = string

  type Assignment = map<Unit, Layer>

  // The class each layer is built on, which is the layer just below it.
  datatype Base = NoBase | On(layer: Layer)

  function BaseOf(l: Layer): Base {
    match l
    case Wire => NoBase
    case Registry => On(Wire)
    case Coordination => On(Registry)
    case Context => On(Coordination)
    case Turns => On(Context)
    case Runtime => On(Turns)
    case UiModel => On(Runtime)
    case Cli => On(Runtime)
    case Team => On(Runtime)
  }

  // Declaration order.
  function Position(l: Layer): nat {
    match l
    case Wire => 0
    case Registry => 1
    case Coordination => 2
    case Context => 3
    case Turns => 4
    case Runtime => 5
    case UiModel => 6
    case Cli => 7
    case Team => 8
  }

  // A layer may import itself and every layer it is built on.
  predicate MayImport(l: Layer, target: Layer)
    decreases Position(l)
  {
    l == target || (BaseOf(l).On? && MayImport(BaseOf(l).layer, target))
  }

  // Nothing else is built on a top layer.
  ghost predicate OnTop(l: Layer) {
    !exists m: Layer :: m != l && MayImport(m, l)
  }

  lemma {:induction false} ChainImportsBelow(l: Layer, target: Layer)
    requires Position(target) <= 5
    ensures MayImport(l, target) <==> Position(target) <= Position(l)
    decreases Position(l)
  {
    if l != target && BaseOf(l).On? {
      ChainImportsBelow(BaseOf(l).layer, target);
    }
  }

  lemma {:induction false} TopImportedByItselfOnly(l: Layer, target: Layer)
    requires Position(target) > 5
    ensures MayImport(l, target) <==> l == target
    decreases Position(l)
  {
    if l != target && BaseOf(l).On? {
      TopImportedByItselfOnly(BaseOf(l).layer, target);
    }
  }

  lemma TopLayers(l: Layer)
    ensures OnTop(l) <==> l in {UiModel, Cli, Team}
  {
    if Position(l) > 5 {
      forall m: Layer | m != l ensures !MayImport(m, l) { TopImportedByItselfOnly(m, l); }
    } else {
      ChainImportsBelow(Team, l);
    }
  }

  datatype Edge = Edge(source: Unit, target: Unit)

  predicate Within(units: seq<Unit>, claimed: Assignment, edges: seq<Edge>) {
    && (forall u :: u in claimed ==> u in units)
    && (forall e :: e in edges ==> e.source in units && e.target in units)
  }

  // What the report promises of an assignment: claims stand, and an unclaimed unit is at least as
  // high as everything it imports.
  ghost predicate Admissible(units: seq<Unit>, claimed: Assignment, edges: seq<Edge>, a: Assignment) {
    && (forall u :: u in units <==> u in a)
    && (forall u :: u in claimed ==> u in a && a[u] == claimed[u])
    && (forall e :: e in edges && e.source in a && e.target in a && e.source !in claimed
                    ==> Position(a[e.target]) <= Position(a[e.source]))
  }

  ghost predicate Below(a: Assignment, b: Assignment) {
    forall u :: u in a && u in b ==> Position(a[u]) <= Position(b[u])
  }

  // How far the units are from the last layer: the loop's measure.
  ghost function Slack(units: seq<Unit>, a: Assignment): nat
    requires forall u :: u in units ==> u in a
  {
    if units == [] then 0
    else (8 - Position(a[units[0]])) + Slack(units[1..], a)
  }

  lemma {:induction false} RaisingShrinksSlack(units: seq<Unit>, a: Assignment, u: Unit, l: Layer)
    requires forall v :: v in units ==> v in a
    requires u in a && Position(a[u]) < Position(l)
    ensures Slack(units, a[u := l]) <= Slack(units, a)
    ensures u in units ==> Slack(units, a[u := l]) < Slack(units, a)
  {
    if units != [] {
      RaisingShrinksSlack(units[1..], a, u, l);
    }
  }

  // Two least admissible assignments are one: the answer does not depend on the edge order.
  lemma LeastIsUnique(units: seq<Unit>, claimed: Assignment, edges: seq<Edge>, edges': seq<Edge>,
                      a: Assignment, b: Assignment)
    requires forall e :: e in edges <==> e in edges'
    requires Admissible(units, claimed, edges, a) && Admissible(units, claimed, edges', b)
    requires forall x :: Admissible(units, claimed, edges, x) ==> Below(a, x)
    requires forall x :: Admissible(units, claimed, edges', x) ==> Below(b, x)
    ensures a == b
  {
    assert Below(a, b) && Below(b, a);
    forall u | u in a
      ensures u in b && a[u] == b[u]
    {
      assert u in units;
    }
  }

  method UnitLayers(units: seq<Unit>, claimed: Assignment, edges: seq<Edge>) returns (layers: Assignment)
    requires Within(units, claimed, edges)
    ensures Admissible(units, claimed, edges, layers)
    ensures forall other :: Admissible(units, claimed, edges, other) ==> Below(layers, other)
  {
    layers := map u | u in units :: if u in claimed then claimed[u] else Wire;
    var changed := true;
    while changed
      invariant forall u :: u in units <==> u in layers
      invariant forall u :: u in claimed ==> layers[u] == claimed[u]
      invariant forall other :: Admissible(units, claimed, edges, other) ==> Below(layers, other)
      invariant !changed ==> Admissible(units, claimed, edges, layers)
      decreases Slack(units, layers), changed
    {
      changed := false;
      ghost var before := layers;
      for i := 0 to |edges|
        invariant forall u :: u in units <==> u in layers
        invariant forall u :: u in claimed ==> layers[u] == claimed[u]
        invariant forall other :: Admissible(units, claimed, edges, other) ==> Below(layers, other)
        invariant if changed then Slack(units, layers) < Slack(units, before) else layers == before
        invariant !changed ==> forall e :: e in edges[..i] && e.source !in claimed
                                           ==> Position(layers[e.target]) <= Position(layers[e.source])
      {
        var e := edges[i];
        assert e in edges;
        var higher := Position(layers[e.target]) > Position(layers[e.source]);
        if e.source !in claimed && higher {
          RaisingShrinksSlack(units, layers, e.source, layers[e.target]);
          layers, changed := layers[e.source := layers[e.target]], true;
        }
      }
      assert edges[..|edges|] == edges;
    }
  }

  predicate Violates(layers: Assignment, e: Edge)
    requires e.source in layers && e.target in layers
  {
    !MayImport(layers[e.source], layers[e.target])
  }

  // An unclaimed unit adds a violation exactly when it imports a top layer other than its own.
  lemma UnclaimedViolatesOnlyAcrossTops(units: seq<Unit>, claimed: Assignment, edges: seq<Edge>,
                                        layers: Assignment, e: Edge)
    requires Within(units, claimed, edges) && Admissible(units, claimed, edges, layers)
    requires e in edges && e.source !in claimed
    ensures Violates(layers, e) <==> OnTop(layers[e.target]) && layers[e.target] != layers[e.source]
  {
    var source, target := layers[e.source], layers[e.target];
    TopLayers(target);
    if Position(target) <= 5 {
      ChainImportsBelow(source, target);
    } else {
      TopImportedByItselfOnly(source, target);
    }
  }

  // ---- The layers by claims and imports alone ----------------------------------------------------------

  // A chain of imports through unclaimed units to a claimed one.
  ghost predicate Chain(claimed: Assignment, edges: seq<Edge>, p: seq<Unit>) {
    && p != [] && p[|p| - 1] in claimed
    && forall i :: 0 <= i < |p| - 1 ==> p[i] !in claimed && Edge(p[i], p[i + 1]) in edges
  }

  ghost predicate ChainFrom(claimed: Assignment, edges: seq<Edge>, p: seq<Unit>, u: Unit, l: Layer) {
    Chain(claimed, edges, p) && p[0] == u && claimed[p[|p| - 1]] == l
  }

  // A unit draws a layer: its own claim, or one it imports through unclaimed units; or the lowest.
  ghost predicate Draws(claimed: Assignment, edges: seq<Edge>, u: Unit, l: Layer) {
    (l == Wire && u !in claimed) || exists p :: ChainFrom(claimed, edges, p, u, l)
  }

  ghost predicate IsHighest(claimed: Assignment, edges: seq<Edge>, u: Unit, l: Layer) {
    Draws(claimed, edges, u, l) && forall k: Layer :: Draws(claimed, edges, u, k) ==> Position(k) <= Position(l)
  }

  lemma {:induction false} HighestExists(claimed: Assignment, edges: seq<Edge>, u: Unit, l: Layer)
    requires Draws(claimed, edges, u, l)
    ensures exists h: Layer :: IsHighest(claimed, edges, u, h)
    decreases 8 - Position(l)
  {
    if k: Layer :| Draws(claimed, edges, u, k) && Position(k) > Position(l) {
      HighestExists(claimed, edges, u, k);
    } else {
      assert IsHighest(claimed, edges, u, l);
    }
  }

  lemma SomethingDrawn(claimed: Assignment, edges: seq<Edge>, u: Unit)
    ensures exists l: Layer :: Draws(claimed, edges, u, l)
  {
    if u in claimed {
      assert ChainFrom(claimed, edges, [u], u, claimed[u]);
      assert Draws(claimed, edges, u, claimed[u]);
    } else {
      assert Draws(claimed, edges, u, Wire);
    }
  }

  ghost function Highest(claimed: Assignment, edges: seq<Edge>, u: Unit): (h: Layer)
    ensures IsHighest(claimed, edges, u, h)
  {
    SomethingDrawn(claimed, edges, u);
    var l: Layer :| Draws(claimed, edges, u, l);
    HighestExists(claimed, edges, u, l);
    var h: Layer :| IsHighest(claimed, edges, u, h);
    h
  }

  // Every admissible assignment stands at or above all a unit draws.
  lemma {:induction false} ChainStandsBelow(units: seq<Unit>, claimed: Assignment, edges: seq<Edge>, a: Assignment,
                                            p: seq<Unit>)
    requires Within(units, claimed, edges) && Admissible(units, claimed, edges, a) && Chain(claimed, edges, p)
    ensures p[0] in a && Position(claimed[p[|p| - 1]]) <= Position(a[p[0]])
    decreases |p|
  {
    if |p| > 1 {
      var rest := p[1..];
      assert forall i :: 0 <= i < |rest| ==> rest[i] == p[i + 1];
      assert Edge(p[0], p[1]) in edges;
      ChainStandsBelow(units, claimed, edges, a, rest);
    }
  }

  // What an import draws, its unclaimed importer draws.
  lemma ImporterDraws(claimed: Assignment, edges: seq<Edge>, e: Edge, l: Layer)
    requires e in edges && e.source !in claimed && Draws(claimed, edges, e.target, l)
    ensures Draws(claimed, edges, e.source, l)
  {
    if p :| ChainFrom(claimed, edges, p, e.target, l) {
      var longer := [e.source] + p;
      assert e == Edge(e.source, e.target);
      assert forall i :: 0 < i < |longer| ==> longer[i] == p[i - 1];
      assert ChainFrom(claimed, edges, longer, e.source, l);
    }
  }

  ghost function HighestDrawn(units: seq<Unit>, claimed: Assignment, edges: seq<Edge>): Assignment {
    map u | u in units :: Highest(claimed, edges, u)
  }

  lemma ClaimIsHighest(claimed: Assignment, edges: seq<Edge>, u: Unit)
    requires u in claimed
    ensures Highest(claimed, edges, u) == claimed[u]
  {
    var h := Highest(claimed, edges, u);
    var p :| ChainFrom(claimed, edges, p, u, h);
    assert |p| == 1;
  }

  // The least assignment gives every unit the highest layer it draws, by claims and imports alone.
  lemma LeastIsHighestDrawn(units: seq<Unit>, claimed: Assignment, edges: seq<Edge>, layers: Assignment, u: Unit)
    requires Within(units, claimed, edges) && Admissible(units, claimed, edges, layers) && u in units
    requires forall other :: Admissible(units, claimed, edges, other) ==> Below(layers, other)
    ensures u in layers && layers[u] == Highest(claimed, edges, u)
  {
    hide Highest, HighestDrawn;
    DrawnIsAdmissible(units, claimed, edges);
    assert Below(layers, HighestDrawn(units, claimed, edges));
    HighestStandsBelow(units, claimed, edges, layers, u);
    DrawnAt(units, claimed, edges, u);
  }

  lemma DrawnAt(units: seq<Unit>, claimed: Assignment, edges: seq<Edge>, u: Unit)
    requires u in units
    ensures u in HighestDrawn(units, claimed, edges)
    ensures HighestDrawn(units, claimed, edges)[u] == Highest(claimed, edges, u)
  {
    hide Highest, IsHighest;
  }

  lemma DrawnIsAdmissible(units: seq<Unit>, claimed: Assignment, edges: seq<Edge>)
    requires Within(units, claimed, edges)
    ensures Admissible(units, claimed, edges, HighestDrawn(units, claimed, edges))
  {
    hide Highest, Draws;
    forall v | v in claimed ensures Highest(claimed, edges, v) == claimed[v] {
      ClaimIsHighest(claimed, edges, v);
    }
    forall e | e in edges && e.source !in claimed
      ensures Position(Highest(claimed, edges, e.target)) <= Position(Highest(claimed, edges, e.source))
    {
      ImporterDraws(claimed, edges, e, Highest(claimed, edges, e.target));
    }
  }

  lemma HighestStandsBelow(units: seq<Unit>, claimed: Assignment, edges: seq<Edge>, a: Assignment, u: Unit)
    requires Within(units, claimed, edges) && Admissible(units, claimed, edges, a) && u in units
    ensures u in a && Position(Highest(claimed, edges, u)) <= Position(a[u])
  {
    hide Highest, Chain;
    var h := Highest(claimed, edges, u);
    if p :| ChainFrom(claimed, edges, p, u, h) {
      ChainStandsBelow(units, claimed, edges, a, p);
    }
  }

  // So an unclaimed unit's import is a violation exactly when the import draws a top layer and its importer
  // draws a higher one.
  lemma UnclaimedViolatesByClaims(units: seq<Unit>, claimed: Assignment, edges: seq<Edge>, layers: Assignment, e: Edge)
    requires Within(units, claimed, edges) && Admissible(units, claimed, edges, layers)
    requires forall other :: Admissible(units, claimed, edges, other) ==> Below(layers, other)
    requires e in edges && e.source !in claimed
    ensures Violates(layers, e)
            <==> && OnTop(Highest(claimed, edges, e.target))
                 && exists l: Layer :: Draws(claimed, edges, e.source, l)
                      && Position(l) > Position(Highest(claimed, edges, e.target))
  {
    LeastIsHighestDrawn(units, claimed, edges, layers, e.source);
    LeastIsHighestDrawn(units, claimed, edges, layers, e.target);
    UnclaimedViolatesOnlyAcrossTops(units, claimed, edges, layers, e);
  }

  // A unit that imports two claimed top layers has a violation whatever layer it takes.
  lemma TwoTopsViolate(units: seq<Unit>, claimed: Assignment, edges: seq<Edge>, layers: Assignment)
    requires units == ["unit", "cli", "team"] && claimed == map["cli" := Cli, "team" := Team]
    requires edges == [Edge("unit", "cli"), Edge("unit", "team")] && Admissible(units, claimed, edges, layers)
    ensures Within(units, claimed, edges) && "unit" !in claimed && Violates(layers, Edge("unit", "cli"))
  {
    assert edges[0] == Edge("unit", "cli") && edges[1] == Edge("unit", "team");
    assert units[0] == "unit" && units[1] == "cli" && units[2] == "team";
    assert layers["cli"] == Cli && layers["team"] == Team && layers["unit"] == Team;
    TopImportedByItselfOnly(Team, Cli);
  }
}
