/** The link unit: the per-module declaration pass, the search for a pipeline
    by name across modules, and the linking of includes to their targets. */
module Linking {
  import opened Wrappers
  import opened Ast
  import opened Visitors

  /** A top-level declaration of the link unit: the module's position in the
      unit and the declaration's position in that module's list. */
  datatype Ref = Ref(moduleIndex: nat, decl: nat)

  /** A module of the link unit with the state the passes derive for it: the
      names the declaration pass registered, the target resolved for each
      include and the includes attached to each pipeline, the last two keyed by
      the node's path from the module. */
  datatype ModuleRec = ModuleRec(root: Node, pipelines: map<string, nat>,
                                 targets: map<Path, Option<Ref>>, includes: map<Path, seq<Path>>)

  /** What the declaration pass dereferences: every entry, and the declared
      name of every function. */
  predicate PassReady(decls: seq<Option<Node>>) {
    forall i :: 0 <= i < |decls| ==>
      decls[i].Some? && (decls[i].value.FunctionDef? ==> decls[i].value.fnName.varName.Some?)
  }

  /** The name a top-level node is registered under: a pipeline's name, a
      function's declared name, and none for any other kind. */
  function DeclName(n: Node): (r: Option<string>)
    requires n.FunctionDef? ==> n.fnName.varName.Some?
    ensures r.Some? <==> n.Pipeline? || n.FunctionDef?
  {
    match n
    case Pipeline(_, name, _) => Some(name.value)
    case FunctionDef(_, fnName, _, _) => Some(fnName.varName.value.value)
    case _ => None
  }

  /** The registrations after the first `k` entries; an existing name is never
      overwritten. */
  function Registered(decls: seq<Option<Node>>, k: nat): map<string, nat>
    requires PassReady(decls) && k <= |decls|
  {
    if k == 0 then map[]
    else
      var m := Registered(decls, k - 1);
      match DeclName(decls[k - 1].value)
      case Some(name) => if name in m then m else m[name := k - 1]
      case None => m
  }

  /** Entry `i` is the first of `decls` declaring `name`. */
  predicate FirstDeclaring(decls: seq<Option<Node>>, name: string, i: nat)
    requires PassReady(decls)
  {
    i < |decls| && DeclName(decls[i].value) == Some(name)
    && forall j :: 0 <= j < i ==> DeclName(decls[j].value) != Some(name)
  }

  /** A name is registered exactly when a pipeline or function declares it,
      and it maps to the first such declaration. */
  lemma {:induction false} RegisteredFirst(decls: seq<Option<Node>>, k: nat)
    requires PassReady(decls) && k <= |decls|
    ensures forall name :: name in Registered(decls, k) <==>
      exists i :: 0 <= i < k && DeclName(decls[i].value) == Some(name)
    ensures forall name :: name in Registered(decls, k) ==>
      Registered(decls, k)[name] < k && FirstDeclaring(decls, name, Registered(decls, k)[name])
  {
    if k > 0 {
      RegisteredFirst(decls, k - 1);
    }
  }

  /** The declaration pass over a module: each pipeline and each function is
      registered in the one `pipelines` map under its name, first declaration
      first, and everything else is passed over. */
  method GlobalDeclPass(mod: Node) returns (pipelines: map<string, nat>)
    requires mod.Module? && PassReady(mod.globalDecls)
    ensures pipelines == Registered(mod.globalDecls, |mod.globalDecls|)
  {
    pipelines := map[];
    for i := 0 to |mod.globalDecls|
      invariant pipelines == Registered(mod.globalDecls, i)
    {
      var n := mod.globalDecls[i].value;
      if n.Pipeline? {
        if n.name.value !in pipelines {
          pipelines := pipelines[n.name.value := i];
        }
      } else if n.FunctionDef? {
        var name := n.fnName.varName.value.value;
        if name !in pipelines {
          pipelines := pipelines[name := i];
        }
      }
    }
  }

  // Searching the modules for a name.

  function FindFrom(mods: seq<ModuleRec>, name: string, k: nat): (r: Option<Ref>)
    requires k <= |mods|
    ensures r.Some? ==>
      k <= r.value.moduleIndex < |mods| && name in mods[r.value.moduleIndex].pipelines
      && r.value.decl == mods[r.value.moduleIndex].pipelines[name]
      && forall j :: k <= j < r.value.moduleIndex ==> name !in mods[j].pipelines
    ensures r.None? ==> forall j :: k <= j < |mods| ==> name !in mods[j].pipelines
    decreases |mods| - k
  {
    if k == |mods| then None
    else if name in mods[k].pipelines then Some(Ref(k, mods[k].pipelines[name]))
    else FindFrom(mods, name, k + 1)
  }

  /** The registration of `name` in the earliest module that has one, or none. */
  function FindPipelineIn(mods: seq<ModuleRec>, name: string): (r: Option<Ref>)
    ensures r.Some? ==>
      r.value.moduleIndex < |mods| && name in mods[r.value.moduleIndex].pipelines
      && r.value.decl == mods[r.value.moduleIndex].pipelines[name]
      && forall j :: 0 <= j < r.value.moduleIndex ==> name !in mods[j].pipelines
    ensures r.None? ==> forall j :: 0 <= j < |mods| ==> name !in mods[j].pipelines
  {
    FindFrom(mods, name, 0)
  }

  /** The modules register the same names at the same places. */
  ghost predicate SameNames(a: seq<ModuleRec>, b: seq<ModuleRec>) {
    |a| == |b| && forall j :: 0 <= j < |a| ==> a[j].pipelines == b[j].pipelines
  }

  /** The search depends on the registrations only. */
  lemma FindSameNames(a: seq<ModuleRec>, b: seq<ModuleRec>, name: string)
    requires SameNames(a, b)
    ensures FindPipelineIn(a, name) == FindPipelineIn(b, name)
  {
    var ra, rb := FindPipelineIn(a, name), FindPipelineIn(b, name);
    if ra.Some? {
      assert name in b[ra.value.moduleIndex].pipelines;
    }
  }

  // Linking includes.

  /** What the include visitor holds between calls: the pipeline last entered,
      and the target and include fields it has written so far. */
  datatype LinkState = LinkState(curPipe: Option<Path>, targets: map<Path, Option<Ref>>,
                                 includes: map<Path, seq<Path>>)

  function IncludesOf(includes: map<Path, seq<Path>>, p: Path): seq<Path> {
    if p in includes then includes[p] else []
  }

  /** The path of the last pipeline among the first `i` visits: the pipeline
      current when visit `i` is made. Leaving a pipeline does not reset it. */
  function Owner(walk: seq<Visit>, i: nat): Option<Path>
    requires i <= |walk|
  {
    if i == 0 then None
    else if walk[i - 1].node.Pipeline? then Some(walk[i - 1].path)
    else Owner(walk, i - 1)
  }

  /** Every include of the walk comes after some pipeline: otherwise the
      visitor appends through a null current pipeline. */
  ghost predicate IncludesOwned(walk: seq<Visit>) {
    forall i :: 0 <= i < |walk| && walk[i].node.IncludeDecl? ==> Owner(walk, i).Some?
  }

  /** One call of the visitor: a pipeline becomes current; an include gets the
      search's result as its target and is appended to the current pipeline's
      includes; other nodes are ignored. */
  function LinkStep(mods: seq<ModuleRec>, s: LinkState, v: Visit): LinkState
    requires v.node.IncludeDecl? ==> s.curPipe.Some?
  {
    if v.node.Pipeline? then LinkState(Some(v.path), s.targets, s.includes)
    else if v.node.IncludeDecl? then
      var pipe := s.curPipe.value;
      LinkState(s.curPipe,
                s.targets[v.path := FindPipelineIn(mods, v.node.includedPipeline.value)],
                s.includes[pipe := IncludesOf(s.includes, pipe) + [v.path]])
    else s
  }

  /** The visitor's state after the first `k` calls of a walk, from a fresh
      visitor whose fields start as in `init`. */
  function LinkAfter(mods: seq<ModuleRec>, walk: seq<Visit>, k: nat, init: LinkState): (s: LinkState)
    requires k <= |walk| && init.curPipe.None? && IncludesOwned(walk)
    ensures s.curPipe == Owner(walk, k)
  {
    if k == 0 then init else LinkStep(mods, LinkAfter(mods, walk, k - 1, init), walk[k - 1])
  }

  /** The module after a fresh visitor has walked it. */
  function LinkedModule(mods: seq<ModuleRec>, mod: ModuleRec): (r: ModuleRec)
    requires IncludesOwned(TypedVisits(mod.root))
    ensures r.root == mod.root && r.pipelines == mod.pipelines
  {
    var walk := TypedVisits(mod.root);
    var s := LinkAfter(mods, walk, |walk|, LinkState(None, mod.targets, mod.includes));
    ModuleRec(mod.root, mod.pipelines, s.targets, s.includes)
  }

  /** After the first `k` calls, each include among them has the search's
      result for its name as its target; other targets are as they were. */
  lemma {:induction false} LinkAfterTargets(mods: seq<ModuleRec>, walk: seq<Visit>, k: nat, init: LinkState)
    requires k <= |walk| && init.curPipe.None? && IncludesOwned(walk) && DistinctPaths(walk)
    ensures forall i :: 0 <= i < k && walk[i].node.IncludeDecl? ==>
      walk[i].path in LinkAfter(mods, walk, k, init).targets
      && LinkAfter(mods, walk, k, init).targets[walk[i].path]
         == FindPipelineIn(mods, walk[i].node.includedPipeline.value)
    ensures forall p :: (p in LinkAfter(mods, walk, k, init).targets && p in init.targets
      && (forall i :: 0 <= i < k ==> walk[i].path != p || !walk[i].node.IncludeDecl?)) ==>
      LinkAfter(mods, walk, k, init).targets[p] == init.targets[p]
  {
    if k > 0 {
      LinkAfterTargets(mods, walk, k - 1, init);
    }
  }

  /** The includes in the first `k` visits whose current pipeline is `pipe`, in walk order. */
  function Attached(walk: seq<Visit>, k: nat, pipe: Path): seq<Path>
    requires k <= |walk|
  {
    if k == 0 then []
    else
      Attached(walk, k - 1, pipe)
      + (if walk[k - 1].node.IncludeDecl? && Owner(walk, k - 1) == Some(pipe) then [walk[k - 1].path] else [])
  }

  /** After the first `k` calls, each pipeline's includes are those it had,
      followed by the includes met while it was the last pipeline entered. */
  lemma {:induction false} LinkAfterIncludes(mods: seq<ModuleRec>, walk: seq<Visit>, k: nat, init: LinkState)
    requires k <= |walk| && init.curPipe.None? && IncludesOwned(walk)
    ensures forall pipe ::
      IncludesOf(LinkAfter(mods, walk, k, init).includes, pipe) == IncludesOf(init.includes, pipe) + Attached(walk, k, pipe)
  {
    if k > 0 {
      LinkAfterIncludes(mods, walk, k - 1, init);
      var before := LinkAfter(mods, walk, k - 1, init);
      forall pipe
        ensures IncludesOf(LinkAfter(mods, walk, k, init).includes, pipe)
          == IncludesOf(init.includes, pipe) + Attached(walk, k, pipe)
      {
        if walk[k - 1].node.IncludeDecl? && before.curPipe == Some(pipe) {
          assert IncludesOf(LinkAfter(mods, walk, k, init).includes, pipe)
            == IncludesOf(before.includes, pipe) + [walk[k - 1].path];
        }
      }
    }
  }

  /** Linking a module gives every include its walk reaches the target the
      search finds for its name, and appends it to the includes of the
      pipeline last entered before it; the root and the registrations stay. */
  lemma LinkedModuleState(mods: seq<ModuleRec>, mod: ModuleRec)
    requires IncludesOwned(TypedVisits(mod.root))
    ensures forall v :: v in TypedVisits(mod.root) && v.node.IncludeDecl? ==>
      v.path in LinkedModule(mods, mod).targets
      && LinkedModule(mods, mod).targets[v.path] == FindPipelineIn(mods, v.node.includedPipeline.value)
    ensures forall pipe ::
      IncludesOf(LinkedModule(mods, mod).includes, pipe) == IncludesOf(mod.includes, pipe) + Attached(TypedVisits(mod.root), |TypedVisits(mod.root)|, pipe)
  {
    var walk := TypedVisits(mod.root);
    var init := LinkState(None, mod.targets, mod.includes);
    TypedDistinct(mod.root);
    LinkAfterTargets(mods, walk, |walk|, init);
    LinkAfterIncludes(mods, walk, |walk|, init);
    forall v | v in walk && v.node.IncludeDecl?
      ensures v.path in LinkedModule(mods, mod).targets
        && LinkedModule(mods, mod).targets[v.path] == FindPipelineIn(mods, v.node.includedPipeline.value)
    {
      var i :| 0 <= i < |walk| && walk[i] == v;
    }
  }

  /** The unit's modules in the order they were added. */
  class LinkUnit {
    var modules: seq<ModuleRec>

    constructor ()
      ensures modules == []
    {
      modules := [];
    }

    function GetModules(): (r: seq<ModuleRec>)
      reads this
      ensures r == modules
    {
      modules
    }

    /** The passes run on each module before it joins the unit. */
    method DoModulePasses(mod: Node) returns (pipelines: map<string, nat>)
      requires mod.Module? && PassReady(mod.globalDecls)
      ensures pipelines == Registered(mod.globalDecls, |mod.globalDecls|)
    {
      pipelines := GlobalDeclPass(mod);
    }

    /** Runs the passes on a parsed module and appends it, unlinked, after the
        modules already added. */
    method AddModule(mod: Node)
      requires mod.Module? && PassReady(mod.globalDecls)
      modifies this
      ensures modules == old(modules) + [ModuleRec(mod, Registered(mod.globalDecls, |mod.globalDecls|), map[], map[])]
    {
      var pipelines := DoModulePasses(mod);
      modules := modules + [ModuleRec(mod, pipelines, map[], map[])];
    }

    /** The registration of `name` in the earliest module that has one. */
    method FindPipeline(name: string) returns (r: Option<Ref>)
      ensures r == FindPipelineIn(modules, name)
    {
      for m := 0 to |modules|
        invariant forall j :: 0 <= j < m ==> name !in modules[j].pipelines
      {
        if name in modules[m].pipelines {
          return Some(Ref(m, modules[m].pipelines[name]));
        }
      }
      return None;
    }

    /** Walks every module with a fresh include visitor. */
    method LinkIncludes()
      requires forall m :: 0 <= m < |modules| ==> IncludesOwned(TypedVisits(modules[m].root))
      modifies this
      ensures |modules| == old(|modules|)
      ensures forall m :: 0 <= m < |modules| ==> modules[m] == LinkedModule(old(modules), old(modules[m]))
    {
      ghost var before := modules;
      for m := 0 to |modules|
        invariant |modules| == |before| && SameNames(modules, before)
        invariant forall j :: 0 <= j < m ==> modules[j] == LinkedModule(before, before[j])
        invariant forall j :: m <= j < |modules| ==> modules[j] == before[j]
      {
        var mod := modules[m];
        var iv := new IncludeVisitor(this, mod.targets, mod.includes);
        iv.Walk(TypedVisits(mod.root));
        assert iv.State() == LinkAfter(modules, TypedVisits(mod.root), |TypedVisits(mod.root)|,
                                       LinkState(None, mod.targets, mod.includes));
        LinkAfterSameNames(modules, before, TypedVisits(mod.root), |TypedVisits(mod.root)|,
                           LinkState(None, mod.targets, mod.includes));
        modules := modules[m := ModuleRec(mod.root, mod.pipelines, iv.targets, iv.includes)];
      }
    }

    /** Cross-links the modules added so far; meant to run once, after the
        last module is added. */
    method Link()
      requires forall m :: 0 <= m < |modules| ==> IncludesOwned(TypedVisits(modules[m].root))
      modifies this
      ensures |modules| == old(|modules|)
      ensures forall m :: 0 <= m < |modules| ==> modules[m] == LinkedModule(old(modules), old(modules[m]))
    {
      LinkIncludes();
    }
  }

  lemma {:induction false} LinkAfterSameNames(a: seq<ModuleRec>, b: seq<ModuleRec>, walk: seq<Visit>, k: nat, init: LinkState)
    requires SameNames(a, b)
    requires k <= |walk| && init.curPipe.None? && IncludesOwned(walk)
    ensures LinkAfter(a, walk, k, init) == LinkAfter(b, walk, k, init)
  {
    if k > 0 {
      LinkAfterSameNames(a, b, walk, k - 1, init);
      if walk[k - 1].node.IncludeDecl? {
        FindSameNames(a, b, walk[k - 1].node.includedPipeline.value);
      }
    }
  }

  /** The include visitor. `targets` and `includes` stand for the target
      fields of the module's includes and the include lists of its pipelines,
      which the calls write. */
  class IncludeVisitor {
    const l: LinkUnit
    var curPipe: Option<Path>
    var targets: map<Path, Option<Ref>>
    var includes: map<Path, seq<Path>>

    constructor (l: LinkUnit, targets: map<Path, Option<Ref>>, includes: map<Path, seq<Path>>)
      ensures this.l == l && curPipe.None? && this.targets == targets && this.includes == includes
    {
      this.l := l;
      curPipe := None;
      this.targets := targets;
      this.includes := includes;
    }

    function State(): LinkState
      reads this
    {
      LinkState(curPipe, targets, includes)
    }

    /** The call on an include: resolve it and attach it to the current pipeline. */
    method OnInclude(v: Visit)
      requires v.node.IncludeDecl? && curPipe.Some?
      modifies this
      ensures curPipe == old(curPipe)
      ensures targets == old(targets)[v.path := FindPipelineIn(l.modules, v.node.includedPipeline.value)]
      ensures includes == old(includes)[curPipe.value := IncludesOf(old(includes), curPipe.value) + [v.path]]
    {
      var target := l.FindPipeline(v.node.includedPipeline.value);
      targets := targets[v.path := target];
      includes := includes[curPipe.value := IncludesOf(includes, curPipe.value) + [v.path]];
    }

    /** The call on a pipeline: it becomes the current one. */
    method OnPipeline(v: Visit)
      requires v.node.Pipeline?
      modifies this
      ensures curPipe == Some(v.path) && targets == old(targets) && includes == old(includes)
    {
      curPipe := Some(v.path);
    }

    /** The call on a node, by kind; any other kind is ignored. */
    method Call(v: Visit)
      requires v.node.IncludeDecl? ==> curPipe.Some?
      modifies this
      ensures State() == LinkStep(l.modules, old(State()), v)
    {
      if v.node.Pipeline? {
        OnPipeline(v);
      } else if v.node.IncludeDecl? {
        OnInclude(v);
      }
    }

    /** The calls the typed walk makes, in its order. */
    method Walk(walk: seq<Visit>)
      requires curPipe.None? && IncludesOwned(walk)
      modifies this
      ensures State() == LinkAfter(l.modules, walk, |walk|, old(State()))
    {
      ghost var init := State();
      for i := 0 to |walk|
        invariant State() == LinkAfter(l.modules, walk, i, init)
      {
        Call(walk[i]);
      }
    }
  }

  /** The typed walk of a module holding two declarations without children. */
  lemma TwoDeclWalk(m: Node, first: Node, second: Node)
    requires m.Module? && m.globalDecls == [Some(first), Some(second)]
    requires first.Pipeline? || first.IncludeDecl?
    requires second.Pipeline? || second.IncludeDecl?
    requires Slots(first) == [] && Slots(second) == []
    ensures TypedVisits(m) == [Visit([], m), Visit([0], first), Visit([1], second)]
  {
    assert TypedVisits(first) == [Visit([], first)];
    assert TypedVisits(second) == [Visit([], second)];
    assert [0] + [] == [0] && [1] + [] == [1];
    assert Under(0, [Visit([], first)]) == [Visit([0], first)];
    assert Under(1, [Visit([], second)]) == [Visit([1], second)];
    assert TypedKids(m, 1) == TypedKids(m, 0) + Under(0, TypedVisits(first));
    assert TypedKids(m, 2) == TypedKids(m, 1) + Under(1, TypedVisits(second));
  }

  /** The current pipeline is not reset when its contents end: an include met
      after a pipeline, outside it, is attached to that pipeline. */
  lemma IncludeAfterPipeline(name: Ident, other: Ident)
    ensures var m := Module(0, name, [Some(Pipeline(0, name, [])), Some(IncludeDecl(0, other, None))]);
      var walk := TypedVisits(m);
      IncludesOwned(walk) && Attached(walk, |walk|, [0]) == [[1]]
  {
    var p := Pipeline(0, name, []);
    var inc := IncludeDecl(0, other, None);
    var m := Module(0, name, [Some(p), Some(inc)]);
    TwoDeclWalk(m, p, inc);
    var walk := TypedVisits(m);
    assert Owner(walk, 2) == Some([0]);
    assert Attached(walk, 1, [0]) == [];
    assert Attached(walk, 2, [0]) == [];
  }

  /** An include met before any pipeline of its module leaves the visitor
      without a current pipeline. */
  lemma IncludeBeforePipeline(name: Ident, other: Ident)
    ensures var m := Module(0, name, [Some(IncludeDecl(0, other, None)), Some(Pipeline(0, name, []))]);
      !IncludesOwned(TypedVisits(m))
  {
    var p := Pipeline(0, name, []);
    var inc := IncludeDecl(0, other, None);
    var m := Module(0, name, [Some(inc), Some(p)]);
    TwoDeclWalk(m, inc, p);
    assert Owner(TypedVisits(m), 1) == None;
  }

  /** Functions share the map the search reads, so a function's name finds the
      function itself. */
  lemma FunctionFoundAsPipeline(name: Ident, fnName: Ident)
    ensures var f := FunctionDef(0, VarDecl(0, Some(fnName), None, None, None), None, None);
      var m := Module(0, name, [Some(f)]);
      PassReady(m.globalDecls)
      && FindPipelineIn([ModuleRec(m, Registered(m.globalDecls, 1), map[], map[])], fnName.value) == Some(Ref(0, 0))
  {
  }
}
