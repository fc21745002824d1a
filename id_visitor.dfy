/** Sequential numbering of the nodes of a tree: each node reached by the
    one-level child enumeration, applied recursively, takes the current counter
    value, parents before children. */
module IdVisitors {
  import opened Wrappers
  import opened Ast

  /** `n` with the nodes of its walk numbered from `start` in walk order. */
  function Renumbered(n: Node, start: nat): (r: Node)
    ensures NodeID(r) == start && Tag(r) == Tag(n) && |Slots(r)| == |Slots(n)|
    decreases |Reached(n)|, 1
  {
    var kids := RenumberedKids(n, |Slots(n)|, start + 1);
    WithSlotsSlots(WithNodeID(n, start), kids);
    WithSlots(WithNodeID(n, start), kids)
  }

  /** The first `k` slots of `n`, renumbered; slot `i` starts where the walks
      of the slots before it end. */
  function RenumberedKids(n: Node, k: nat, start: nat): (r: seq<Option<Node>>)
    requires k <= |Slots(n)|
    ensures |r| == k
    decreases |Reached(n)|, 0, k
  {
    if k == 0 then []
    else RenumberedKids(n, k - 1, start) + [RenumberedSlot(n, k - 1, start + |ReachedKids(n, k - 1)|)]
  }

  function RenumberedSlot(n: Node, i: nat, start: nat): (r: Option<Node>)
    requires i < |Slots(n)|
    ensures r.Some? <==> Slots(n)[i].Some?
    decreases |Reached(n)|, 0, 0
  {
    match Slots(n)[i]
    case None => None
    case Some(c) => ChildSmaller(n, i); Some(Renumbered(c, start))
  }

  lemma {:induction false} RenumberedKidsAt(n: Node, k: nat, start: nat, j: nat)
    requires j < k <= |Slots(n)|
    ensures RenumberedKids(n, k, start)[j] == RenumberedSlot(n, j, start + |ReachedKids(n, j)|)
    decreases k
  {
    if j < k - 1 {
      RenumberedKidsAt(n, k - 1, start, j);
    }
  }

  lemma RenumberedShape(n: Node, start: nat)
    ensures Slots(Renumbered(n, start)) == RenumberedKids(n, |Slots(n)|, start + 1)
  {
    WithSlotsSlots(WithNodeID(n, start), RenumberedKids(n, |Slots(n)|, start + 1));
  }

  /** `vs` is the walk `orig` with the same paths and node kinds, and ids
      consecutive from `start`. */
  ghost predicate Numbered(vs: seq<Visit>, orig: seq<Visit>, start: nat) {
    |vs| == |orig|
    && forall j :: 0 <= j < |vs| ==>
         vs[j].path == orig[j].path && Tag(vs[j].node) == Tag(orig[j].node)
         && NodeID(vs[j].node) == start + j
  }

  lemma NumberedAppend(a: seq<Visit>, oa: seq<Visit>, b: seq<Visit>, ob: seq<Visit>, start: nat)
    requires Numbered(a, oa, start) && Numbered(b, ob, start + |oa|)
    ensures Numbered(a + b, oa + ob, start)
  {
  }

  /** Renumbering from `start` gives the walk's nodes, in walk order, the ids
      `start`, `start + 1`, ...: there are as many ids as nodes reached, they are
      distinct, and every node's id is smaller than its descendants'. The walk
      itself (paths and node kinds) is unchanged. */
  lemma {:induction false} RenumberedWalk(n: Node, start: nat)
    ensures Numbered(Reached(Renumbered(n, start)), Reached(n), start)
    decreases |Reached(n)|, 1
  {
    var r := Renumbered(n, start);
    RenumberedShape(n, start);
    RenumberedKidsWalk(n, r, start, |Slots(n)|);
    NumberedAppend([Visit([], r)], [Visit([], n)],
                   ReachedKids(r, |Slots(n)|), ReachedKids(n, |Slots(n)|), start);
  }

  /** The walks below the first `k` slots of `r`, the renumbered `n`. */
  lemma {:induction false} RenumberedKidsWalk(n: Node, r: Node, start: nat, k: nat)
    requires k <= |Slots(n)|
    requires Slots(r) == RenumberedKids(n, |Slots(n)|, start + 1)
    ensures Numbered(ReachedKids(r, k), ReachedKids(n, k), start + 1)
    decreases |Reached(n)|, 0, k, 1
  {
    if k > 0 {
      RenumberedKidsWalk(n, r, start, k - 1);
      RenumberedLastSlotWalk(n, r, start, k);
      ReachedKidsStep(r, k);
      ReachedKidsStep(n, k);
      NumberedAppend(ReachedKids(r, k - 1), ReachedKids(n, k - 1),
                     SlotVisits(k - 1, Slots(r)[k - 1]), SlotVisits(k - 1, Slots(n)[k - 1]), start + 1);
    }
  }

  /** The walk below slot `k - 1` of `r` is numbered from where the walks of
      the slots before it end. */
  lemma {:induction false} RenumberedLastSlotWalk(n: Node, r: Node, start: nat, k: nat)
    requires 0 < k <= |Slots(n)|
    requires Slots(r) == RenumberedKids(n, |Slots(n)|, start + 1)
    ensures Numbered(SlotVisits(k - 1, Slots(r)[k - 1]), SlotVisits(k - 1, Slots(n)[k - 1]),
                     start + 1 + |ReachedKids(n, k - 1)|)
    decreases |Reached(n)|, 0, k, 0
  {
    var from := start + 1 + |ReachedKids(n, k - 1)|;
    RenumberedKidsAt(n, |Slots(n)|, start + 1, k - 1);
    assert Slots(r)[k - 1] == RenumberedSlot(n, k - 1, from);
    RenumberedSlotWalk(n, r, k - 1, from);
  }

  lemma {:induction false} RenumberedSlotWalk(n: Node, r: Node, i: nat, from: nat)
    requires i < |Slots(n)| == |Slots(r)|
    requires Slots(r)[i] == RenumberedSlot(n, i, from)
    ensures Numbered(SlotVisits(i, Slots(r)[i]), SlotVisits(i, Slots(n)[i]), from)
    decreases |Reached(n)|, 0, 0, 0
  {
    match Slots(n)[i]
    case None =>
    case Some(c) =>
      ChildSmaller(n, i);
      RenumberedWalk(c, from);
  }

  /** `n` with the id of every node its walk reaches set to 0. */
  function Cleared(n: Node): (r: Node)
    ensures NodeID(r) == 0 && Tag(r) == Tag(n) && |Slots(r)| == |Slots(n)|
    decreases |Reached(n)|, 1
  {
    var kids := ClearedKids(n, |Slots(n)|);
    WithSlotsSlots(WithNodeID(n, 0), kids);
    WithSlots(WithNodeID(n, 0), kids)
  }

  function ClearedKids(n: Node, k: nat): (r: seq<Option<Node>>)
    requires k <= |Slots(n)|
    ensures |r| == k
    decreases |Reached(n)|, 0, k
  {
    if k == 0 then [] else ClearedKids(n, k - 1) + [ClearedSlot(n, k - 1)]
  }

  function ClearedSlot(n: Node, i: nat): (r: Option<Node>)
    requires i < |Slots(n)|
    ensures r.Some? <==> Slots(n)[i].Some?
    decreases |Reached(n)|, 0, 0
  {
    match Slots(n)[i]
    case None => None
    case Some(c) => ChildSmaller(n, i); Some(Cleared(c))
  }

  /** Replacing the slots and then the id is the same as replacing the id and
      then the slots. */
  lemma WithSlotsThenId(n: Node, a: nat, kids: seq<Option<Node>>, b: nat, kids2: seq<Option<Node>>)
    requires |kids| == |Slots(n)| == |kids2|
    ensures |Slots(WithSlots(WithNodeID(n, a), kids))| == |kids2|
    ensures WithSlots(WithNodeID(WithSlots(WithNodeID(n, a), kids), b), kids2) == WithSlots(WithNodeID(n, b), kids2)
  {
    WithSlotsSlots(WithNodeID(n, a), kids);
  }

  /** Renumbering changes nothing but the ids of the nodes the walk reaches:
      names, parameter lists, declaration parts and everything else keep
      their values, ids included. */
  lemma {:induction false} RenumberedOnlyIds(n: Node, start: nat)
    ensures Cleared(Renumbered(n, start)) == Cleared(n)
    decreases |Reached(n)|, 1
  {
    var kids := RenumberedKids(n, |Slots(n)|, start + 1);
    var r := Renumbered(n, start);
    RenumberedShape(n, start);
    ClearedKidsAfterRenumbering(n, r, start, |Slots(n)|);
    WithSlotsThenId(n, start, kids, 0, ClearedKids(n, |Slots(n)|));
  }

  lemma {:induction false} ClearedKidsAfterRenumbering(n: Node, r: Node, start: nat, k: nat)
    requires k <= |Slots(n)|
    requires Slots(r) == RenumberedKids(n, |Slots(n)|, start + 1)
    ensures ClearedKids(r, k) == ClearedKids(n, k)
    decreases |Reached(n)|, 0, k
  {
    if k > 0 {
      ClearedKidsAfterRenumbering(n, r, start, k - 1);
      RenumberedKidsAt(n, |Slots(n)|, start + 1, k - 1);
      ClearedSlotAfterRenumbering(n, r, k - 1, start + 1 + |ReachedKids(n, k - 1)|);
    }
  }

  lemma {:induction false} ClearedSlotAfterRenumbering(n: Node, r: Node, i: nat, from: nat)
    requires i < |Slots(n)| == |Slots(r)|
    requires Slots(r)[i] == RenumberedSlot(n, i, from)
    ensures ClearedSlot(r, i) == ClearedSlot(n, i)
    decreases |Reached(n)|, 0, 0
  {
    match Slots(n)[i]
    case None =>
    case Some(c) =>
      ChildSmaller(n, i);
      RenumberedOnlyIds(c, from);
  }

  /** The numbering visitor: `id` is the next id to hand out. */
  class IDVisitor {
    var id: nat

    constructor ()
      ensures id == 1
    {
      id := 1;
    }

    /** Numbers `root` and everything below it, returning the numbered tree. A
        null root changes nothing. */
    method Visit(root: Option<Node>) returns (numbered: Option<Node>)
      modifies this
      ensures root.None? ==> numbered == None && id == old(id)
      ensures root.Some? ==>
        numbered == Some(Renumbered(root.value, old(id)))
        && id == old(id) + |Reached(root.value)|
      decreases if root.Some? then |Reached(root.value)| else 0
    {
      if root.None? {
        return None;
      }
      var n := root.value;
      var self := WithNodeID(n, id);
      id := id + 1;
      // The children are those the one-level enumeration passes; the null
      // entries it skips in a Module would be returned from at once.
      var kids: seq<Option<Node>> := [];
      var i := 0;
      while i < |Slots(n)|
        invariant 0 <= i <= |Slots(n)|
        invariant kids == RenumberedKids(n, i, old(id) + 1)
        invariant id == old(id) + 1 + |ReachedKids(n, i)|
      {
        ReachedSlotIs(n, i);
        if Slots(n)[i].Some? {
          ChildSmaller(n, i);
        }
        var kid := Visit(Slots(n)[i]);
        kids := kids + [kid];
        i := i + 1;
      }
      numbered := Some(WithSlots(self, kids));
    }
  }

  /** A fresh visitor numbers the walk of a tree 1, 2, ..., and ends with the
      counter one past the number of nodes reached. */
  method NumberTree(root: Node) returns (numbered: Node, next: nat)
    ensures Numbered(Reached(numbered), Reached(root), 1)
    ensures next == |Reached(root)| + 1
    ensures Cleared(numbered) == Cleared(root)
  {
    var v := new IDVisitor();
    var r := v.Visit(Some(root));
    numbered := r.value;
    next := v.id;
    RenumberedWalk(root, 1);
    RenumberedOnlyIds(root, 1);
  }
}
