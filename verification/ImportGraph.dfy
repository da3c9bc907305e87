/** The load graph of a package: import edges plus the packages above a module.

    `ImportGraph.reached` of tools/module_layers.py is a worklist loop. It is proved to
    compute exactly the modules a path leads to, and it terminates on every graph.
 */
module ImportGraphs {

  // A dotted module name, by its parts.
  type Module = seq<string>

  type Edges = map<Module, set<Module>>

  function Targets(g: Edges, m: Module): set<Module> {
    if m in g then g[m] else {}
  }

  // Loading `a` loads `b`: an import edge, or `b` is a package above `a`.
  predicate Loads(g: Edges, a: Module, b: Module) {
    b in Targets(g, a) || (b != [] && b < a)
  }

  ghost predicate Path(g: Edges, p: seq<Module>) {
    && p != []
    && forall i :: 0 <= i < |p| - 1 ==> Loads(g, p[i], p[i + 1])
  }

  ghost predicate PathFrom(g: Edges, p: seq<Module>, a: Module, b: Module) {
    Path(g, p) && p[0] == a && p[|p| - 1] == b
  }

  ghost predicate Reaches(g: Edges, a: Module, b: Module) {
    exists p :: PathFrom(g, p, a, b)
  }

  // Two modules that load each other: the shape an import deadlocks on.
  ghost predicate Mutual(g: Edges, a: Module, b: Module) {
    Reaches(g, a, b) && Reaches(g, b, a)
  }

  lemma ReachesSelf(g: Edges, a: Module)
    ensures Reaches(g, a, a)
  {
    assert PathFrom(g, [a], a, a);
  }

  lemma ReachesStep(g: Edges, a: Module, b: Module, c: Module)
    requires Reaches(g, a, b) && Loads(g, b, c)
    ensures Reaches(g, a, c)
  {
    var p :| PathFrom(g, p, a, b);
    assert PathFrom(g, p + [c], a, c);
  }

  lemma ReachesTransitive(g: Edges, a: Module, b: Module, c: Module)
    requires Reaches(g, a, b) && Reaches(g, b, c)
    ensures Reaches(g, a, c)
  {
    var p :| PathFrom(g, p, a, b);
    var q :| PathFrom(g, q, b, c);
    var r := p + q[1..];
    forall i | 0 <= i < |r| - 1
      ensures Loads(g, r[i], r[i + 1])
    {
      if i >= |p| - 1 {
        assert r[i] == q[i - (|p| - 1)] && r[i + 1] == q[i + 1 - (|p| - 1)];
      }
    }
    assert PathFrom(g, r, a, c);
  }

  // A set closed under loading holds everything its members reach.
  lemma {:induction false} ClosedHoldsReached(g: Edges, s: set<Module>, p: seq<Module>)
    requires Path(g, p) && p[0] in s
    requires forall a, b :: a in s && Loads(g, a, b) ==> b in s
    ensures p[|p| - 1] in s
    decreases |p|
  {
    if |p| > 1 {
      assert Loads(g, p[0], p[1]);
      var rest := p[1..];
      forall i | 0 <= i < |rest| - 1
        ensures Loads(g, rest[i], rest[i + 1])
      {
        assert Loads(g, p[i + 1], p[i + 2]);
      }
      ClosedHoldsReached(g, s, rest);
    }
  }

  // Every name the worklist can hold: the starts, the import targets and the packages above them.
  ghost function Universe(g: Edges, starts: seq<Module>): set<Module> {
    var named := (set m | m in starts) + (set a, b | a in g && b in g[a] :: b);
    set m, k | m in named && 0 <= k <= |m| :: m[..k]
  }

  lemma UniverseHolds(g: Edges, starts: seq<Module>, m: Module)
    requires m in starts || exists a :: a in g && m in g[a]
    ensures m in Universe(g, starts)
  {
    assert m[..|m|] == m;
  }

  lemma UniverseClosed(g: Edges, starts: seq<Module>, a: Module, b: Module)
    requires a in Universe(g, starts) && Loads(g, a, b)
    ensures b in Universe(g, starts)
  {
    if b in Targets(g, a) {
      UniverseHolds(g, starts, b);
    } else {
      var named := (set m | m in starts) + (set x, y | x in g && y in g[x] :: y);
      var m, k :| m in named && 0 <= k <= |m| && a == m[..k];
      assert b == m[..|b|];
    }
  }

  // The packages above a module, outermost first.
  function Parents(m: Module): (ps: seq<Module>)
    ensures forall b :: b in ps <==> b != [] && b < m
  {
    var ps := if |m| == 0 then [] else seq(|m| - 1, i requires 0 <= i < |m| - 1 => m[..i + 1]);
    assert forall b :: b != [] && b < m ==> ps[|b| - 1] == b;
    ps
  }

  // The members of a set in some order, as iterating it gives them.
  method Listed(s: set<Module>) returns (l: seq<Module>)
    ensures forall m :: m in l <==> m in s
  {
    l := [];
    var left := s;
    while left != {}
      invariant left <= s
      invariant forall m :: m in l <==> m in s && m !in left
      decreases left
    {
      var m :| m in left;
      l := l + [m];
      left := left - {m};
    }
  }

  lemma SplitLast(s: seq<Module>)
    requires s != []
    ensures s == s[..|s| - 1] + [s[|s| - 1]]
  {}

  ghost predicate ReachedFrom(g: Edges, starts: seq<Module>, m: Module) {
    exists s :: s in starts && Reaches(g, s, m)
  }

  // What the worklist keeps: everything named is reached, and everything a seen module loads is named.
  ghost predicate WorklistHolds(g: Edges, starts: seq<Module>, seen: set<Module>, todo: seq<Module>) {
    && (forall m :: m in seen || m in todo ==> m in Universe(g, starts) && ReachedFrom(g, starts, m))
    && (forall m :: m in starts ==> m in seen || m in todo)
    && (forall a, b :: a in seen && Loads(g, a, b) ==> b in seen || b in todo)
  }

  lemma StartsReached(g: Edges, starts: seq<Module>)
    ensures WorklistHolds(g, starts, {}, starts)
  {
    forall m | m in starts
      ensures m in Universe(g, starts) && ReachedFrom(g, starts, m)
    {
      UniverseHolds(g, starts, m);
      ReachesSelf(g, m);
    }
  }

  lemma WorklistStep(g: Edges, starts: seq<Module>, seen: set<Module>, todo: seq<Module>, next: Module,
                     after: seq<Module>)
    requires WorklistHolds(g, starts, seen, todo + [next])
    requires forall m :: m in after <==> m in todo || Loads(g, next, m)
    ensures next in Universe(g, starts)
    ensures WorklistHolds(g, starts, seen + {next}, after)
  {
    assert next in todo + [next];
    forall b | Loads(g, next, b)
      ensures b in Universe(g, starts) && ReachedFrom(g, starts, b)
    {
      UniverseClosed(g, starts, next, b);
      var s :| s in starts && Reaches(g, s, next);
      ReachesStep(g, s, next, b);
    }
  }

  lemma WorklistSkip(g: Edges, starts: seq<Module>, seen: set<Module>, todo: seq<Module>, next: Module)
    requires WorklistHolds(g, starts, seen, todo + [next]) && next in seen
    ensures WorklistHolds(g, starts, seen, todo)
  {
    assert forall m :: m in todo + [next] <==> m in todo || m == next;
  }

  lemma WorklistDone(g: Edges, starts: seq<Module>, seen: set<Module>)
    requires WorklistHolds(g, starts, seen, [])
    ensures forall m :: m in seen <==> ReachedFrom(g, starts, m)
  {
    forall s, m | s in starts && Reaches(g, s, m)
      ensures m in seen
    {
      var p :| PathFrom(g, p, s, m);
      ClosedHoldsReached(g, seen, p);
    }
  }

  class ImportGraph {
    var targets: Edges

    constructor (edges: seq<(Module, Module)>)
      ensures forall a, b :: b in Targets(targets, a) <==> (a, b) in edges
    {
      targets := map[];
      new;
      for i := 0 to |edges|
        invariant forall a, b :: b in Targets(targets, a) <==> (a, b) in edges[..i]
      {
        Add(edges[i].0, {edges[i].1});
      }
    }

    method Add(source: Module, more: set<Module>)
      modifies this
      ensures forall a, b :: b in Targets(targets, a) <==> b in Targets(old(targets), a) || (a == source && b in more)
      ensures targets == WithEdges(old(targets), source, more)
    {
      targets := targets[source := Targets(targets, source) + more];
    }

    method Reached(starts: seq<Module>) returns (seen: set<Module>)
      ensures forall m :: m in seen <==> ReachedFrom(targets, starts, m)
    {
      seen := {};
      var todo := starts;
      StartsReached(targets, starts);
      while todo != []
        invariant WorklistHolds(targets, starts, seen, todo)
        decreases Universe(targets, starts) - seen, |todo|
      {
        var next := todo[|todo| - 1];
        SplitLast(todo);
        todo := todo[..|todo| - 1];
        if next in seen {
          WorklistSkip(targets, starts, seen, todo, next);
          continue;
        }
        var imported := Listed(Targets(targets, next));
        WorklistStep(targets, starts, seen, todo, next, todo + Parents(next) + imported);
        seen := seen + {next};
        todo := todo + Parents(next);
        todo := todo + imported;
      }
      WorklistDone(targets, starts, seen);
    }
  }

  function WithEdges(g: Edges, source: Module, more: set<Module>): Edges {
    g[source := Targets(g, source) + more]
  }
}
