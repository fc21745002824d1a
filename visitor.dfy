/** The two traversal templates. Both hold no state of their own: every effect
    belongs to the callback, so each is modelled by the sequence of calls it
    makes. */
module Visitors {
  import opened Wrappers
  import opened Ast

  /** The entries of `s` that are not null, in order. */
  function Present(s: seq<Option<Node>>): (r: seq<Option<Node>>)
    ensures forall i :: 0 <= i < |r| ==> r[i].Some?
    ensures forall x :: x in r <==> x in s && x.Some?
    decreases |s|
  {
    if s == [] then []
    else
      var init := s[..|s| - 1];
      assert s == init + [s[|s| - 1]];
      Present(init) + (if s[|s| - 1].Some? then [s[|s| - 1]] else [])
  }

  /** The arguments of the callback calls `applyVisitor` makes on `root`, in
      order; a None entry is a null pointer handed to the callback. Only a
      Module's entries are compared with null. */
  function ApplyVisitor(root: Option<Node>): seq<Option<Node>> {
    match root
    case None => []
    case Some(n) =>
      match n
      case Module(_, _, globalDecls) => Present(globalDecls)
      case Pipeline(_, _, contents) => contents
      case BinaryOp(_, _, left, right) => [left, right]
      case UnaryOp(_, _, argument) => [argument]
      case FunctionDef(_, _, _, body) => [body]
      case FunctionCall(_, _, arguments) => arguments
      case Lambda(_, _, body) => [body]
      // the source casts a 'csst' node to `CaseSet`, declared nowhere; the
      // only node with that tag is PsiExpr
      case PsiExpr(_, cases) => cases
      case Case(_, condition, result) => [condition, result]
      case Let(_, assignments, body) => assignments + [body]
      case StructDef(_, _, members) => members
      case _ => []
  }

  /** `applyVisitor` passes exactly the slots, except that for a Module the
      null entries are skipped; a null root and a node without a branch give
      no call. */
  lemma ApplyVisitorSlots(root: Option<Node>)
    ensures root.None? ==> ApplyVisitor(root) == []
    ensures root.Some? && !root.value.Module? ==> ApplyVisitor(root) == Slots(root.value)
    ensures root.Some? && root.value.Module? ==> ApplyVisitor(root) == Present(Slots(root.value))
    ensures root.Some? && !HasBranch(root.value) ==> ApplyVisitor(root) == []
  {
  }

  /** The nodes `applyTypedVisitor` hands to the callback, in call order: a
      node with a branch before everything below it, children in field and
      list order, null children and entries skipped. */
  function TypedVisits(n: Node): seq<Visit>
    decreases |Reached(n)|, 1
  {
    if HasBranch(n) then [Visit([], n)] + TypedKids(n, |Slots(n)|) else []
  }

  function TypedKids(n: Node, k: nat): seq<Visit>
    requires k <= |Slots(n)|
    decreases |Reached(n)|, 0, k
  {
    if k == 0 then []
    else
      TypedKids(n, k - 1) +
        match Slots(n)[k - 1]
        case None => []
        case Some(c) => ChildSmaller(n, k - 1); Under(k - 1, TypedVisits(c))
  }

  /** The typed walk of a possibly null root. */
  function ApplyTypedVisitor(root: Option<Node>): seq<Visit> {
    match root
    case None => []
    case Some(n) => TypedVisits(n)
  }

  /** The visits of `vs` whose node has a branch, in order. */
  function BranchOnly(vs: seq<Visit>): seq<Visit>
    decreases |vs|
  {
    if vs == [] then []
    else BranchOnly(vs[..|vs| - 1]) + (if HasBranch(vs[|vs| - 1].node) then [vs[|vs| - 1]] else [])
  }

  lemma {:induction false} BranchOnlyAppend(a: seq<Visit>, b: seq<Visit>)
    ensures BranchOnly(a + b) == BranchOnly(a) + BranchOnly(b)
    decreases |b|
  {
    if b == [] {
      assert a + b == a;
    } else {
      var init := b[..|b| - 1];
      BranchOnlyAppend(a, init);
      assert (a + b)[..|a + b| - 1] == a + init;
    }
  }

  lemma {:induction false} BranchOnlyUnder(i: nat, vs: seq<Visit>)
    ensures BranchOnly(Under(i, vs)) == Under(i, BranchOnly(vs))
    decreases |vs|
  {
    if vs != [] {
      var init := vs[..|vs| - 1];
      BranchOnlyUnder(i, init);
      assert Under(i, vs)[..|vs| - 1] == Under(i, init);
      UnderAppend(i, BranchOnly(init), if HasBranch(vs[|vs| - 1].node) then [vs[|vs| - 1]] else []);
    }
  }

  /** The typed walk is the full pre-order walk with the nodes that have no
      branch left out: it calls the callback on every node with a branch that
      is reachable, and on no other. */
  lemma {:induction false} TypedIsBranchFilter(n: Node)
    ensures TypedVisits(n) == BranchOnly(Reached(n))
    decreases |Reached(n)|, 1
  {
    var kids := ReachedKids(n, |Slots(n)|);
    assert Reached(n) == [Visit([], n)] + kids;
    BranchOnlyAppend([Visit([], n)], kids);
    assert BranchOnly([Visit([], n)]) == if HasBranch(n) then [Visit([], n)] else [];
    if HasBranch(n) {
      TypedKidsFilter(n, |Slots(n)|);
    } else {
      NoBranchNoSlots(n);
    }
  }

  lemma {:induction false} TypedKidsFilter(n: Node, k: nat)
    requires k <= |Slots(n)|
    ensures TypedKids(n, k) == BranchOnly(ReachedKids(n, k))
    decreases |Reached(n)|, 0, k
  {
    if k > 0 {
      TypedKidsFilter(n, k - 1);
      ReachedSlotIs(n, k - 1);
      BranchOnlyAppend(ReachedKids(n, k - 1), ReachedSlot(n, k - 1));
      match Slots(n)[k - 1]
      case None =>
      case Some(c) =>
        ChildSmaller(n, k - 1);
        TypedIsBranchFilter(c);
        BranchOnlyUnder(k - 1, Reached(c));
    }
  }

  /** An IncludeDecl is handed to the callback and nothing below it is. */
  lemma TypedIncludeDecl(n: Node)
    requires n.IncludeDecl?
    ensures TypedVisits(n) == [Visit([], n)]
  {
  }

  lemma {:induction false} BranchOnlyKeeps(vs: seq<Visit>)
    ensures forall v :: v in BranchOnly(vs) <==> v in vs && HasBranch(v.node)
    ensures DistinctPaths(vs) ==> DistinctPaths(BranchOnly(vs))
    decreases |vs|
  {
    if vs != [] {
      var init := vs[..|vs| - 1];
      BranchOnlyKeeps(init);
      assert vs == init + [vs[|vs| - 1]];
      if DistinctPaths(vs) {
        assert DistinctPaths(init);
        forall v | v in init ensures v.path != vs[|vs| - 1].path {
          var a :| 0 <= a < |init| && init[a] == v;
        }
      }
    }
  }

  /** The typed walk passes each node with a branch once, named by a
      path no other visit has. */
  lemma TypedDistinct(n: Node)
    ensures DistinctPaths(TypedVisits(n))
    ensures forall v :: v in TypedVisits(n) ==> v in Reached(n) && HasBranch(v.node)
  {
    TypedIsBranchFilter(n);
    ReachedDistinct(n);
    BranchOnlyKeeps(Reached(n));
  }
}
