/** Moving function-local imports to module tops (tools/repairs.py).

    Each local import of a file is judged once, with every move already accepted in the load
    graph. Over any sequence of files and imports, the moves never make two modules load each
    other that did not before.
 */
module Hoists {
  import opened ImportGraphs

  // One import written as a body statement of a function. The last four fields are facts of
  // the source text that no move changes.
  datatype LocalImport = LocalImport(
    qualname: string, text: string, names: set<string>, inside: set<Module>,
    standardRoot: bool, plainLine: bool, rebound: bool, wholeBody: bool)

  // The names a file's top level binds, and the text of the top-level import binding each.
  datatype TopLevel = TopLevel(bound: set<string>, imported: map<string, string>)

  // Why an import stays, in the order the reasons are asked, and `Moves` when none holds.
  datatype Verdict =
    | OutsidePackage | ThirdParty | NotOnePlainLine | BoundOtherwise | BoundByAnotherMove
    | Rebound | WholeBody | ImportCycle | Moves

  // One file under the hoist: no module when it lies outside the package.
  datatype SourceFile = SourceFile(module_: Module, inPackage: bool, top: TopLevel, locals: seq<LocalImport>)

  // The shared graph and tally, and the current file's moved names and imports.
  datatype Hoisting = Hoisting(
    targets: Edges, left: multiset<Verdict>, hoisted: map<string, string>,
    moved: map<string, seq<LocalImport>>)

  predicate HasBoundOtherwise(top: TopLevel, local: LocalImport) {
    exists n :: n in local.names && n in top.bound
                && !(n in top.imported && top.imported[n] == local.text)
  }

  predicate BoundByMove(hoisted: map<string, string>, local: LocalImport) {
    exists n :: n in local.names && n in hoisted && hoisted[n] != local.text
  }

  // Some module the import names leads back to the importing module.
  ghost predicate LeadsBack(g: Edges, module_: Module, inside: set<Module>) {
    exists t :: t in inside && Reaches(g, t, module_)
  }

  ghost function VerdictOf(st: Hoisting, module_: Module, top: TopLevel, local: LocalImport): Verdict {
    if local.inside == {} && !local.standardRoot then ThirdParty
    else if !local.plainLine then NotOnePlainLine
    else if HasBoundOtherwise(top, local) then BoundOtherwise
    else if BoundByMove(st.hoisted, local) then BoundByAnotherMove
    else if local.rebound then Rebound
    else if local.wholeBody then WholeBody
    else if LeadsBack(st.targets, module_, local.inside) then ImportCycle
    else Moves
  }

  function Bound(hoisted: map<string, string>, local: LocalImport): map<string, string> {
    hoisted + (map n | n in local.names :: local.text)
  }

  function Appended(moved: map<string, seq<LocalImport>>, local: LocalImport): map<string, seq<LocalImport>> {
    moved[local.qualname := (if local.qualname in moved then moved[local.qualname] else []) + [local]]
  }

  ghost function Take(st: Hoisting, module_: Module, top: TopLevel, local: LocalImport): Hoisting {
    var verdict := VerdictOf(st, module_, top, local);
    if verdict.Moves? then
      Hoisting(WithEdges(st.targets, module_, local.inside), st.left, Bound(st.hoisted, local),
          Appended(st.moved, local))
    else
      st.(left := st.left + multiset{verdict})
  }

  // The state after the first `k` imports of a file.
  ghost function TakeAll(st: Hoisting, f: SourceFile, k: nat): Hoisting
    requires k <= |f.locals|
  {
    if k == 0 then st.(hoisted := map[], moved := map[])
    else Take(TakeAll(st, f, k - 1), f.module_, f.top, f.locals[k - 1])
  }

  ghost function VerdictAt(st: Hoisting, f: SourceFile, k: nat): Verdict
    requires k < |f.locals|
  {
    VerdictOf(TakeAll(st, f, k), f.module_, f.top, f.locals[k])
  }

  function Times(v: Verdict, n: nat): (m: multiset<Verdict>)
    ensures m[v] == n && forall w :: w != v ==> m[w] == 0
  {
    multiset{}[v := n]
  }

  ghost function OverFile(st: Hoisting, f: SourceFile): Hoisting {
    if f.inPackage then TakeAll(st, f, |f.locals|)
    else st.(left := st.left + Times(OutsidePackage, |f.locals|), hoisted := map[], moved := map[])
  }

  ghost function OverFiles(st: Hoisting, files: seq<SourceFile>): Hoisting {
    if files == [] then st else OverFile(OverFiles(st, files[..|files| - 1]), files[|files| - 1])
  }

  // ---- No new load cycle ------------------------------------------------------------------

  // The modules that load each other are the same in both graphs.
  ghost predicate SameCycles(g: Edges, g': Edges) {
    forall a, b :: Mutual(g, a, b) <==> Mutual(g', a, b)
  }

  lemma MoreEdgesReachMore(g: Edges, m: Module, more: set<Module>, a: Module, b: Module)
    requires Reaches(g, a, b)
    ensures Reaches(WithEdges(g, m, more), a, b)
  {
    var p :| PathFrom(g, p, a, b);
    assert forall i :: 0 <= i < |p| - 1 ==> Loads(g, p[i], p[i + 1]) && Loads(WithEdges(g, m, more), p[i], p[i + 1]);
    assert PathFrom(WithEdges(g, m, more), p, a, b);
  }

  // New edges leave `m` only, so a path to `m` can be cut where it first arrives.
  lemma {:induction false} ArrivesByOldEdges(g: Edges, m: Module, more: set<Module>, p: seq<Module>)
    requires Path(WithEdges(g, m, more), p) && p[|p| - 1] == m
    ensures Reaches(g, p[0], m)
    decreases |p|
  {
    if p[0] == m {
      ReachesSelf(g, m);
    } else {
      assert Loads(WithEdges(g, m, more), p[0], p[1]);
      var rest := p[1..];
      assert forall i :: 0 <= i < |rest| - 1 ==> Loads(WithEdges(g, m, more), p[i + 1], p[i + 2])
                                                 && rest[i] == p[i + 1];
      ArrivesByOldEdges(g, m, more, rest);
      ReachesSelf(g, p[0]);
      ReachesStep(g, p[0], p[0], p[1]);
      ReachesTransitive(g, p[0], p[1], m);
    }
  }

  lemma ReachesByOldEdges(g: Edges, m: Module, more: set<Module>, x: Module)
    requires Reaches(WithEdges(g, m, more), x, m)
    ensures Reaches(g, x, m)
  {
    var p :| PathFrom(WithEdges(g, m, more), p, x, m);
    ArrivesByOldEdges(g, m, more, p);
  }

  // A path is made of old edges, or old edges lead to `m` and on from the target of its last new one.
  lemma {:induction false} OldOrThroughNew(g: Edges, m: Module, more: set<Module>, p: seq<Module>)
    requires Path(WithEdges(g, m, more), p)
    ensures Reaches(g, p[0], p[|p| - 1]) || (Reaches(g, p[0], m) && exists t :: t in more && Reaches(g, t, p[|p| - 1]))
    decreases |p|
  {
    var g' := WithEdges(g, m, more);
    ReachesSelf(g, p[0]);
    if |p| > 1 {
      assert Loads(g', p[0], p[1]);
      var rest := p[1..];
      assert forall i :: 0 <= i < |rest| - 1 ==> Loads(g', p[i + 1], p[i + 2]) && rest[i] == p[i + 1];
      OldOrThroughNew(g, m, more, rest);
      if Loads(g, p[0], p[1]) {
        ReachesStep(g, p[0], p[0], p[1]);
        if Reaches(g, p[1], p[|p| - 1]) {
          ReachesTransitive(g, p[0], p[1], p[|p| - 1]);
        } else {
          ReachesTransitive(g, p[0], p[1], m);
        }
      }
    }
  }

  // Exactly what adding imports to a module makes reachable: what was, and whatever its new imports
  // reached, from every module that reached it.
  lemma AddedImportsReach(g: Edges, m: Module, more: set<Module>, a: Module, b: Module)
    ensures Reaches(WithEdges(g, m, more), a, b)
            <==> Reaches(g, a, b) || (Reaches(g, a, m) && exists t :: t in more && Reaches(g, t, b))
  {
    var g' := WithEdges(g, m, more);
    if Reaches(g', a, b) {
      var p :| PathFrom(g', p, a, b);
      OldOrThroughNew(g, m, more, p);
    }
    if Reaches(g, a, b) {
      MoreEdgesReachMore(g, m, more, a, b);
    }
    if t :| t in more && Reaches(g, a, m) && Reaches(g, t, b) {
      MoreEdgesReachMore(g, m, more, a, m);
      MoreEdgesReachMore(g, m, more, t, b);
      ReachesStep(g', a, m, t);
      ReachesTransitive(g', a, t, b);
    }
  }

  // Every new import that leads back was loaded already.
  ghost predicate BackOnlyWhereLoaded(g: Edges, m: Module, more: set<Module>) {
    forall t :: t in more && Reaches(g, t, m) ==> Reaches(g, m, t)
  }

  // New imports of a module leave the load cycles as they are exactly when each that leads back to it was
  // loaded by it already; an import kept for its cycle is kept needlessly just then.
  lemma MoveKeepsCyclesExactly(g: Edges, m: Module, more: set<Module>)
    ensures SameCycles(g, WithEdges(g, m, more)) <==> BackOnlyWhereLoaded(g, m, more)
  {
    hide Reaches;
    var g' := WithEdges(g, m, more);
    if BackOnlyWhereLoaded(g, m, more) {
      forall a, b
        ensures Mutual(g, a, b) <==> Mutual(g', a, b)
      {
        if Mutual(g, a, b) {
          MoreEdgesReachMore(g, m, more, a, b);
          MoreEdgesReachMore(g, m, more, b, a);
        }
        if Mutual(g', a, b) {
          StaysOld(g, m, more, a, b);
          StaysOld(g, m, more, b, a);
        }
      }
    }
    if SameCycles(g, g') {
      forall t | t in more && Reaches(g, t, m) ensures Reaches(g, m, t) {
        MoreEdgesReachMore(g, m, more, t, m);
        ReachesSelf(g', m);
        ReachesStep(g', m, m, t);
        assert Mutual(g', m, t);
        assert Mutual(g, m, t);
      }
    }
  }

  // The step: imports whose targets do not lead back close no cycle.
  lemma MoveKeepsCycles(g: Edges, m: Module, more: set<Module>)
    requires !LeadsBack(g, m, more)
    ensures SameCycles(g, WithEdges(g, m, more))
  {
    hide Reaches, SameCycles;
    MoveKeepsCyclesExactly(g, m, more);
  }

  lemma StaysOld(g: Edges, m: Module, more: set<Module>, a: Module, b: Module)
    requires BackOnlyWhereLoaded(g, m, more) && Mutual(WithEdges(g, m, more), a, b)
    ensures Reaches(g, a, b)
  {
    hide Reaches;
    AddedImportsReach(g, m, more, a, b);
    if !Reaches(g, a, b) {
      var t :| t in more && Reaches(g, t, b);
      var g' := WithEdges(g, m, more);
      MoreEdgesReachMore(g, m, more, t, b);
      MoreEdgesReachMore(g, m, more, a, m);
      ReachesTransitive(g', t, b, a);
      ReachesTransitive(g', t, a, m);
      ReachesByOldEdges(g, m, more, t);
      ReachesTransitive(g, a, m, t);
      ReachesTransitive(g, a, t, b);
    }
  }

  lemma {:induction false} FileKeepsCycles(st: Hoisting, f: SourceFile, k: nat)
    requires k <= |f.locals|
    ensures SameCycles(st.targets, TakeAll(st, f, k).targets)
  {
    if k > 0 {
      FileKeepsCycles(st, f, k - 1);
      var before := TakeAll(st, f, k - 1);
      if VerdictAt(st, f, k - 1).Moves? {
        MoveKeepsCycles(before.targets, f.module_, f.locals[k - 1].inside);
      }
    }
  }

  // Whatever files and imports are judged, in whatever order, the load cycles stay what they were.
  lemma {:induction false} HoistingKeepsCycles(st: Hoisting, files: seq<SourceFile>)
    ensures SameCycles(st.targets, OverFiles(st, files).targets)
  {
    if files != [] {
      HoistingKeepsCycles(st, files[..|files| - 1]);
      var f := files[|files| - 1];
      if f.inPackage {
        FileKeepsCycles(OverFiles(st, files[..|files| - 1]), f, |f.locals|);
      }
    }
  }

  // A moved import is on no load cycle of its file's final graph.
  lemma {:induction false} MovedImportIsOnNoCycle(st: Hoisting, f: SourceFile, i: nat, k: nat, t: Module)
    requires i < k <= |f.locals| && VerdictAt(st, f, i).Moves? && t in f.locals[i].inside
    ensures Reaches(TakeAll(st, f, k).targets, f.module_, t)
    ensures !Reaches(TakeAll(st, f, k).targets, t, f.module_)
    decreases k
  {
    var before, after := TakeAll(st, f, k - 1), TakeAll(st, f, k);
    if i == k - 1 {
      ReachesSelf(after.targets, f.module_);
      ReachesStep(after.targets, f.module_, f.module_, t);
      if Reaches(after.targets, t, f.module_) {
        ReachesByOldEdges(before.targets, f.module_, f.locals[i].inside, t);
        assert false;
      }
    } else {
      MovedImportIsOnNoCycle(st, f, i, k - 1, t);
      if VerdictAt(st, f, k - 1).Moves? {
        MoveKeepsCycles(before.targets, f.module_, f.locals[k - 1].inside);
        MoreEdgesReachMore(before.targets, f.module_, f.locals[k - 1].inside, f.module_, t);
        assert !Mutual(before.targets, f.module_, t);
      }
    }
  }

  lemma {:induction false} FileReachesMore(st: Hoisting, f: SourceFile, k: nat, a: Module, b: Module)
    requires k <= |f.locals| && Reaches(st.targets, a, b)
    ensures Reaches(TakeAll(st, f, k).targets, a, b)
  {
    hide Reaches, VerdictOf;
    if k > 0 {
      FileReachesMore(st, f, k - 1, a, b);
      MoreEdgesReachMore(TakeAll(st, f, k - 1).targets, f.module_, f.locals[k - 1].inside, a, b);
    }
  }

  // However many files follow, a moved import is loaded by its own file and never loads it back.
  lemma {:induction false} MovedImportStaysOffCycles(st: Hoisting, files: seq<SourceFile>, n: nat, i: nat, t: Module)
    requires n < |files| && files[n].inPackage && i < |files[n].locals|
    requires VerdictAt(OverFiles(st, files[..n]), files[n], i).Moves? && t in files[n].locals[i].inside
    ensures Reaches(OverFiles(st, files).targets, files[n].module_, t)
    ensures !Reaches(OverFiles(st, files).targets, t, files[n].module_)
    decreases |files|
  {
    hide Reaches, VerdictOf, TakeAll, SameCycles;
    var earlier, f, m := files[..|files| - 1], files[|files| - 1], files[n].module_;
    var before := OverFiles(st, earlier);
    if n == |files| - 1 {
      MovedImportIsOnNoCycle(before, f, i, |f.locals|, t);
    } else {
      assert earlier[n] == files[n] && earlier[..n] == files[..n];
      MovedImportStaysOffCycles(st, earlier, n, i, t);
      if f.inPackage {
        FileReachesMore(before, f, |f.locals|, m, t);
        FileKeepsCycles(before, f, |f.locals|);
        OffCyclesStays(before.targets, OverFiles(st, files).targets, m, t);
      }
    }
  }

  lemma OffCyclesStays(g: Edges, g': Edges, m: Module, t: Module)
    requires SameCycles(g, g') && Reaches(g', m, t) && !Reaches(g, t, m)
    ensures !Reaches(g', t, m)
  {
    hide Reaches;
    assert !Mutual(g, m, t);
    assert !Mutual(g', m, t);
  }

  // ---- One import text per moved name, and nothing lost -------------------------------------

  // Every moved import's names are bound by its own text at the end of the file, so two moved
  // imports sharing a name have one text, and neither contradicts the file's own top level.
  lemma {:induction false} MovedNamesHaveOneText(st: Hoisting, f: SourceFile, i: nat, k: nat, n: string)
    requires i < k <= |f.locals| && VerdictAt(st, f, i).Moves? && n in f.locals[i].names
    ensures n in TakeAll(st, f, k).hoisted && TakeAll(st, f, k).hoisted[n] == f.locals[i].text
    ensures n in f.top.bound ==> n in f.top.imported && f.top.imported[n] == f.locals[i].text
    decreases k
  {
    if i < k - 1 {
      MovedNamesHaveOneText(st, f, i, k - 1, n);
      if VerdictAt(st, f, k - 1).Moves? && n in f.locals[k - 1].names {
        assert !BoundByMove(TakeAll(st, f, k - 1).hoisted, f.locals[k - 1]);
      }
    }
  }

  // The imports moved out of one function, in the order they were judged.
  ghost function MovedFrom(st: Hoisting, f: SourceFile, k: nat, qualname: string): seq<LocalImport>
    requires k <= |f.locals|
  {
    if k == 0 then []
    else MovedFrom(st, f, k - 1, qualname)
         + if f.locals[k - 1].qualname == qualname && VerdictAt(st, f, k - 1).Moves? then [f.locals[k - 1]] else []
  }

  ghost function KeptFor(st: Hoisting, f: SourceFile, k: nat): multiset<Verdict>
    requires k <= |f.locals|
  {
    if k == 0 then multiset{}
    else KeptFor(st, f, k - 1)
         + if VerdictAt(st, f, k - 1).Moves? then multiset{} else multiset{VerdictAt(st, f, k - 1)}
  }

  ghost function MovedCount(st: Hoisting, f: SourceFile, k: nat): nat
    requires k <= |f.locals|
  {
    if k == 0 then 0 else MovedCount(st, f, k - 1) + if VerdictAt(st, f, k - 1).Moves? then 1 else 0
  }

  // What judging one more import changes.
  lemma TakeOne(st: Hoisting, f: SourceFile, k: nat)
    requires 0 < k <= |f.locals|
    ensures var before, after := TakeAll(st, f, k - 1), TakeAll(st, f, k);
            if VerdictAt(st, f, k - 1).Moves?
            then after.left == before.left && after.moved == Appended(before.moved, f.locals[k - 1])
            else after.left == before.left + multiset{VerdictAt(st, f, k - 1)} && after.moved == before.moved
  {
    hide VerdictOf, WithEdges, Bound, Appended;
  }

  lemma TakeNone(st: Hoisting, f: SourceFile)
    ensures TakeAll(st, f, 0).left == st.left && TakeAll(st, f, 0).moved == map[]
  {
  }

  // Every import that stays is tallied once under its own reason, and the rest moved.
  lemma {:induction false} EveryImportIsMovedOrTallied(st: Hoisting, f: SourceFile, k: nat)
    requires k <= |f.locals|
    ensures TakeAll(st, f, k).left == st.left + KeptFor(st, f, k)
    ensures |KeptFor(st, f, k)| + MovedCount(st, f, k) == k
  {
    hide TakeAll, VerdictAt, Appended;
    TakeNone(st, f);
    if k > 0 {
      TakeOne(st, f, k);
      EveryImportIsMovedOrTallied(st, f, k - 1);
    }
  }

  function MovedOf(moved: map<string, seq<LocalImport>>, q: string): seq<LocalImport> {
    if q in moved then moved[q] else []
  }

  lemma AppendedMoves(moved: map<string, seq<LocalImport>>, local: LocalImport, q: string)
    ensures MovedOf(Appended(moved, local), q) == MovedOf(moved, q) + if local.qualname == q then [local] else []
  {
  }

  lemma NothingMoved(st: Hoisting, f: SourceFile, q: string)
    ensures MovedOf(TakeAll(st, f, 0).moved, q) == MovedFrom(st, f, 0, q) == []
  {
  }

  lemma MovedFromOne(st: Hoisting, f: SourceFile, k: nat, q: string)
    requires 0 < k <= |f.locals|
    ensures var local := f.locals[k - 1];
            MovedFrom(st, f, k, q)
            == if VerdictAt(st, f, k - 1).Moves?
                 then MovedFrom(st, f, k - 1, q) + (if local.qualname == q then [local] else [])
               else MovedFrom(st, f, k - 1, q)
  {
    hide VerdictAt;
  }

  // A function loses exactly its own moved imports, in order.
  lemma {:induction false} FunctionLosesItsMovedImports(st: Hoisting, f: SourceFile, k: nat, q: string)
    requires k <= |f.locals|
    ensures MovedOf(TakeAll(st, f, k).moved, q) == MovedFrom(st, f, k, q)
  {
    hide TakeAll, VerdictAt, Appended, MovedFrom;
    if k == 0 {
      NothingMoved(st, f, q);
    } else {
      TakeOne(st, f, k);
      AppendedMoves(TakeAll(st, f, k - 1).moved, f.locals[k - 1], q);
      MovedFromOne(st, f, k, q);
      FunctionLosesItsMovedImports(st, f, k - 1, q);
    }
  }

  // What was moved before has no part in a verdict.
  lemma VerdictIgnoresMoved(st: Hoisting, moved: map<string, seq<LocalImport>>, module_: Module, top: TopLevel,
                            local: LocalImport)
    ensures VerdictOf(st.(moved := moved), module_, top, local) == VerdictOf(st, module_, top, local)
  {}

  // No change keeps the cycles.
  lemma SameCyclesSelf(g: Edges)
    ensures SameCycles(g, g)
  {}

  // ---- The repair as it runs ----------------------------------------------------------------

  class ImportHoist {
    const graph: ImportGraph
    var left: multiset<Verdict>

    constructor (graph: ImportGraph)
      ensures this.graph == graph && left == multiset{}
    {
      this.graph := graph;
      left := multiset{};
    }

    ghost function State(): Hoisting
      reads this, graph
    {
      Hoisting(graph.targets, left, map[], map[])
    }

    method Judge(module_: Module, top: TopLevel, hoisted: map<string, string>, local: LocalImport)
      returns (verdict: Verdict)
      ensures verdict == VerdictOf(Hoisting(graph.targets, left, hoisted, map[]), module_, top, local)
    {
      if local.inside == {} && !local.standardRoot { return ThirdParty; }
      if !local.plainLine { return NotOnePlainLine; }
      if HasBoundOtherwise(top, local) { return BoundOtherwise; }
      if BoundByMove(hoisted, local) { return BoundByAnotherMove; }
      if local.rebound { return Rebound; }
      if local.wholeBody { return WholeBody; }
      var starts := Listed(local.inside);
      var reached := graph.Reached(starts);
      verdict := if module_ in reached then ImportCycle else Moves;
    }

    method FileOperations(f: SourceFile) returns (hoisted: map<string, string>, moved: map<string, seq<LocalImport>>)
      modifies this, graph
      ensures Hoisting(graph.targets, left, hoisted, moved) == OverFile(old(State()), f)
      ensures SameCycles(old(graph.targets), graph.targets)
    {
      hide VerdictOf, WithEdges, Bound, Appended, SameCycles;
      hoisted, moved := map[], map[];
      ghost var start := State();
      if !f.inPackage {
        left := left + Times(OutsidePackage, |f.locals|);
        SameCyclesSelf(graph.targets);
        return;
      }
      for k := 0 to |f.locals|
        invariant Hoisting(graph.targets, left, hoisted, moved) == TakeAll(start, f, k)
      {
        var local := f.locals[k];
        var verdict := Judge(f.module_, f.top, hoisted, local);
        VerdictIgnoresMoved(Hoisting(graph.targets, left, hoisted, moved), map[], f.module_, f.top, local);
        assert verdict == VerdictAt(start, f, k);
        if verdict.Moves? {
          graph.Add(f.module_, local.inside);
          hoisted := Bound(hoisted, local);
          moved := Appended(moved, local);
        } else {
          left := left + multiset{verdict};
        }
      }
      FileKeepsCycles(start, f, |f.locals|);
    }
  }
}
