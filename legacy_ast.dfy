/** The earlier form of the tree: constructors only store their arguments, and
    the parent pointers are set afterwards by `initChildren`, which the
    factory `make_node` calls once on every node it makes. The node objects are
    those of the current form; a weak back-pointer is a plain reference here. */
module LegacyAst {
  import opened AstObjects

  /** Points the children of `n` back at it: for a Lambda its parameters only,
      for every other kind each child pointer present and each list entry. A
      leaf has nothing to wire. */
  method InitChildren(n: AstNode)
    requires n.Laid()
    modifies n.Wired()`parent
    ensures n.ParentsWired()
  {
    if n.tag == "lmbd" {
      n.SetParents(n.items);
      return;
    }
    assert forall c :: c in n.fields && c != null ==> c in n.Wired();
    for i := 0 to |n.fields|
      invariant forall j :: 0 <= j < i && n.fields[j] != null ==> n.fields[j].parent == n
    {
      if n.fields[i] != null {
        n.fields[i].parent := n;
      }
    }
    n.SetParents(n.items);
    assert forall c :: c in NonNull(n.fields) ==> c.parent == n by {
      forall c | c in NonNull(n.fields) ensures c.parent == n {
        var j :| 0 <= j < |n.fields| && n.fields[j] == c;
      }
    }
  }

  /** `make_node`: builds the node from the constructor's arguments, storing
      them unwired, then wires it once. */
  method MakeNode(tag: string, text: string, value: int, fields: seq<AstNode?>,
                  items: seq<AstNode>, hasList: bool) returns (n: AstNode)
    requires Layout(tag, fields, items, hasList)
    modifies NonNull(fields)`parent, set c | c in items :: c`parent
    ensures fresh(n) && n.tag == tag && n.text == text && n.value == value
    ensures n.fields == fields && n.items == items && n.hasList == hasList
    ensures n.parent == null && n.nodeID == 0 && n.exprType == ""
    ensures n.ParentsWired()
  {
    n := new AstNode.Stored(tag, text, value, fields, items, hasList);
    InitChildren(n);
  }

  /** The module constructor makes its own name node; `make_node` then wires
      the name and the declarations. */
  method MakeModule(name: string, globalDecls: seq<AstNode>, hasList: bool) returns (m: AstNode)
    requires !hasList ==> globalDecls == []
    modifies set c | c in globalDecls :: c`parent
    ensures fresh(m) && m.tag == "_mod" && |m.fields| == 1 && m.fields[0] != null && fresh(m.fields[0])
    ensures m.fields[0].tag == "idnt" && m.fields[0].text == name
    ensures m.items == globalDecls && m.hasList == hasList
    ensures m.parent == null && m.nodeID == 0 && m.exprType == ""
    ensures m.Laid() && m.ParentsWired()
  {
    var nameNode := new AstNode.IdentLeaf(name);
    m := new AstNode.Stored("_mod", "", 0, [nameNode], globalDecls, hasList);
    InitChildren(m);
  }

  /** The stealing declaration constructor: it takes the name, type and index of
      `o` and the new `scope`, leaves the four fields of `o` null, and wires
      nothing; the moved parts still point at `o` until `initChildren` runs. */
  method StealVarDecl(o: AstNode, scope: AstNode?) returns (n: AstNode)
    requires o.tag == "vdcl" && |o.fields| == 4
    modifies o`fields
    ensures fresh(n) && n.tag == "vdcl" && n.fields == old(o.fields[..3]) + [scope] && n.items == []
    ensures o.fields == [null, null, null, null]
    ensures n.parent == null && n.nodeID == 0 && n.exprType == "" && n.Laid()
  {
    n := new AstNode.Stored("vdcl", "", 0, o.fields[..3] + [scope], [], false);
    o.fields := [null, null, null, null];
  }
}
