/** Node numbering of the later Python AST: one counter shared by all nodes,
    starting at zero; each new node takes the current value and the counter
    moves on by one. This is `Node.__init__` as it would run: the module as
    written does not import, and its subclasses' constructors raise before
    taking an id. */
module ParasolAst {
  class NodeIds {
    var counter: nat
    /** The ids handed out so far, oldest first. */
    ghost var issued: seq<nat>

    /** The ids handed out are 0, 1, 2, ... and the counter is the next one. */
    ghost predicate Valid()
      reads this
    {
      counter == |issued| && forall i :: 0 <= i < |issued| ==> issued[i] == i
    }

    constructor ()
      ensures Valid() && counter == 0 && issued == []
    {
      counter := 0;
      issued := [];
    }

    /** Returns the current counter and then increments it. */
    method NewId() returns (nid: nat)
      requires Valid()
      modifies this
      ensures Valid() && nid == old(counter) && counter == old(counter) + 1
      ensures issued == old(issued) + [nid] && nid !in old(issued)
    {
      nid := counter;
      counter := counter + 1;
      issued := issued + [nid];
    }
  }

  /** Two ids handed out by one counter differ. */
  lemma IssuedDistinct(c: NodeIds, i: nat, j: nat)
    requires c.Valid() && i < j < |c.issued|
    ensures c.issued[i] != c.issued[j] && c.issued[i] < c.issued[j] < c.counter
  {
  }
}
