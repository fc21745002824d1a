/** The abstract syntax tree as values. A node's children, in the order the
    walks pass them, are its slots; a node inside a tree is named by the path
    of slot indices that leads to it from the root. */
module Ast {
  import opened Wrappers

  type Path = seq<nat>

  datatype Ident = Ident(nodeID: nat, value: string)

  /** A type name with an array dimension, 1 unless given. */
  datatype TypeIdent = TypeIdent(nodeID: nat, value: string, dimension: int)

  datatype Integer = Integer(nodeID: nat, value: int)

  /** Every part of a declaration may be missing. */
  datatype VarDecl = VarDecl(nodeID: nat, varName: Option<Ident>, varType: Option<TypeIdent>,
                             varIndex: Option<Integer>, scope: Option<Ident>)

  /** One constructor per node struct. A child pointer that may be null is an
      Option, and so is each entry of a child list; the lists themselves are present. */
  datatype Node =
    | IntegerNode(integer: Integer)
    | FloatNode(floatID: nat)
    | IdentNode(ident: Ident)
    | TypeIdentNode(typeIdent: TypeIdent)
    | VarDeclNode(varDecl: VarDecl)
    | BinaryOp(id: nat, operatorToken: int, left: Option<Node>, right: Option<Node>)
    | UnaryOp(id: nat, operatorToken: int, argument: Option<Node>)
    | FunctionCall(id: nat, functionName: Ident, arguments: seq<Option<Node>>)
    | FunctionDef(id: nat, fnName: VarDecl, parameters: Option<seq<VarDecl>>, body: Option<Node>)
    | Lambda(id: nat, parameters: Option<seq<VarDecl>>, body: Option<Node>)
    | Case(id: nat, condition: Option<Node>, result: Option<Node>)
    | PsiExpr(id: nat, cases: seq<Option<Node>>)
    | Let(id: nat, assignments: seq<Option<Node>>, body: Option<Node>)
    | IncludeDecl(id: nat, includedPipeline: Ident, asName: Option<Ident>)
    | Pipeline(id: nat, name: Ident, contents: seq<Option<Node>>)
    | StructDef(id: nat, name: Ident, members: seq<Option<Node>>)
    | Module(id: nat, name: Ident, globalDecls: seq<Option<Node>>)

  /** The node's four-character type tag. */
  function Tag(n: Node): (t: string)
    ensures |t| == 4
  {
    match n
    case IntegerNode(_) => "_int"
    case FloatNode(_) => "_flt"
    case IdentNode(_) => "idnt"
    case TypeIdentNode(_) => "tpid"
    case VarDeclNode(_) => "vdcl"
    case BinaryOp(_, _, _, _) => "bnop"
    case UnaryOp(_, _, _) => "unop"
    case FunctionCall(_, _, _) => "fncl"
    case FunctionDef(_, _, _, _) => "fndf"
    case Lambda(_, _, _) => "lmbd"
    case Case(_, _, _) => "case"
    case PsiExpr(_, _) => "csst"
    case Let(_, _, _) => "_let"
    case IncludeDecl(_, _, _) => "incl"
    case Pipeline(_, _, _) => "pipe"
    case StructDef(_, _, _) => "strt"
    case Module(_, _, _) => "_mod"
  }

  function NodeID(n: Node): nat {
    match n
    case IntegerNode(i) => i.nodeID
    case FloatNode(f) => f
    case IdentNode(i) => i.nodeID
    case TypeIdentNode(t) => t.nodeID
    case VarDeclNode(v) => v.nodeID
    case _ => n.id
  }

  function WithNodeID(n: Node, nodeID: nat): (r: Node)
    ensures NodeID(r) == nodeID && Tag(r) == Tag(n) && Slots(r) == Slots(n)
  {
    match n
    case IntegerNode(i) => IntegerNode(Integer(nodeID, i.value))
    case FloatNode(_) => FloatNode(nodeID)
    case IdentNode(i) => IdentNode(Ident(nodeID, i.value))
    case TypeIdentNode(t) => TypeIdentNode(TypeIdent(nodeID, t.value, t.dimension))
    case VarDeclNode(v) => VarDeclNode(VarDecl(nodeID, v.varName, v.varType, v.varIndex, v.scope))
    case BinaryOp(_, op, l, r) => BinaryOp(nodeID, op, l, r)
    case UnaryOp(_, op, a) => UnaryOp(nodeID, op, a)
    case FunctionCall(_, f, a) => FunctionCall(nodeID, f, a)
    case FunctionDef(_, f, p, b) => FunctionDef(nodeID, f, p, b)
    case Lambda(_, p, b) => Lambda(nodeID, p, b)
    case Case(_, c, r) => Case(nodeID, c, r)
    case PsiExpr(_, c) => PsiExpr(nodeID, c)
    case Let(_, a, b) => Let(nodeID, a, b)
    case IncludeDecl(_, i, a) => IncludeDecl(nodeID, i, a)
    case Pipeline(_, nm, c) => Pipeline(nodeID, nm, c)
    case StructDef(_, nm, m) => StructDef(nodeID, nm, m)
    case Module(_, nm, d) => Module(nodeID, nm, d)
  }

  /** The children the walks pass on, in field order; names, parameter lists and
      declaration parts are not among them. */
  function Slots(n: Node): seq<Option<Node>> {
    match n
    case BinaryOp(_, _, left, right) => [left, right]
    case UnaryOp(_, _, argument) => [argument]
    case FunctionCall(_, _, arguments) => arguments
    case FunctionDef(_, _, _, body) => [body]
    case Lambda(_, _, body) => [body]
    case Case(_, condition, result) => [condition, result]
    case PsiExpr(_, cases) => cases
    case Let(_, assignments, body) => assignments + [body]
    case Pipeline(_, _, contents) => contents
    case StructDef(_, _, members) => members
    case Module(_, _, globalDecls) => globalDecls
    case _ => []
  }

  /** The same node with its slots replaced, position by position. */
  function WithSlots(n: Node, kids: seq<Option<Node>>): Node
    requires |kids| == |Slots(n)|
  {
    match n
    case BinaryOp(id, op, _, _) => BinaryOp(id, op, kids[0], kids[1])
    case UnaryOp(id, op, _) => UnaryOp(id, op, kids[0])
    case FunctionCall(id, f, _) => FunctionCall(id, f, kids)
    case FunctionDef(id, f, p, _) => FunctionDef(id, f, p, kids[0])
    case Lambda(id, p, _) => Lambda(id, p, kids[0])
    case Case(id, _, _) => Case(id, kids[0], kids[1])
    case PsiExpr(id, _) => PsiExpr(id, kids)
    case Let(id, _, _) => Let(id, kids[..|kids| - 1], kids[|kids| - 1])
    case Pipeline(id, nm, _) => Pipeline(id, nm, kids)
    case StructDef(id, nm, _) => StructDef(id, nm, kids)
    case Module(id, nm, _) => Module(id, nm, kids)
    case _ => n
  }

  lemma WithSlotsSlots(n: Node, kids: seq<Option<Node>>)
    requires |kids| == |Slots(n)|
    ensures Slots(WithSlots(n, kids)) == kids
    ensures NodeID(WithSlots(n, kids)) == NodeID(n) && Tag(WithSlots(n, kids)) == Tag(n)
  {
    if n.Let? {
      assert kids == kids[..|kids| - 1] + [kids[|kids| - 1]];
    }
  }

  /** Integer, Float, Ident, TypeIdent and VarDecl have no branch in either walk. */
  predicate HasBranch(n: Node) {
    !(n.IntegerNode? || n.FloatNode? || n.IdentNode? || n.TypeIdentNode? || n.VarDeclNode?)
  }

  lemma NoBranchNoSlots(n: Node)
    requires !HasBranch(n) || n.IncludeDecl?
    ensures Slots(n) == []
  {
  }

  /** A node met by a walk, named by its path from the walk's root. */
  datatype Visit = Visit(path: Path, node: Node)

  /** The visits `vs` of a subtree, seen from a parent that holds it in slot `i`. */
  function Under(i: nat, vs: seq<Visit>): (r: seq<Visit>)
    ensures |r| == |vs|
    ensures forall j :: 0 <= j < |vs| ==> r[j] == Visit([i] + vs[j].path, vs[j].node)
  {
    seq(|vs|, j requires 0 <= j < |vs| => Visit([i] + vs[j].path, vs[j].node))
  }

  lemma UnderAppend(i: nat, a: seq<Visit>, b: seq<Visit>)
    ensures Under(i, a + b) == Under(i, a) + Under(i, b)
  {
  }

  /** Every node reachable through slots, each before its descendants and
      children in slot order; null slots contribute nothing. */
  function Reached(n: Node): (r: seq<Visit>)
    ensures |r| >= 1 && r[0] == Visit([], n)
    decreases n, 1
  {
    [Visit([], n)] + ReachedKids(n, |Slots(n)|)
  }

  /** The visits below the first `k` slots of `n`. */
  function ReachedKids(n: Node, k: nat): seq<Visit>
    requires k <= |Slots(n)|
    decreases n, 0, k
  {
    if k == 0 then []
    else
      assert Slots(n)[k - 1] in Slots(n);
      ReachedKids(n, k - 1) + ReachedSlot(n, k - 1)
  }

  /** The visits below slot `i` of `n`. */
  function ReachedSlot(n: Node, i: nat): seq<Visit>
    requires i < |Slots(n)|
    decreases n, 0, 0
  {
    // The same call in every case: naming the constructor lets Dafny see
    // that the slot is smaller than `n`.
    assert Slots(n)[i] in Slots(n);
    match n
    case BinaryOp(_, _, _, _) => SlotVisits(i, Slots(n)[i])
    case UnaryOp(_, _, _) => SlotVisits(i, Slots(n)[i])
    case FunctionCall(_, _, _) => SlotVisits(i, Slots(n)[i])
    case FunctionDef(_, _, _, _) => SlotVisits(i, Slots(n)[i])
    case Lambda(_, _, _) => SlotVisits(i, Slots(n)[i])
    case Case(_, _, _) => SlotVisits(i, Slots(n)[i])
    case PsiExpr(_, _) => SlotVisits(i, Slots(n)[i])
    case Let(_, _, _) => SlotVisits(i, Slots(n)[i])
    case Pipeline(_, _, _) => SlotVisits(i, Slots(n)[i])
    case StructDef(_, _, _) => SlotVisits(i, Slots(n)[i])
    case Module(_, _, _) => SlotVisits(i, Slots(n)[i])
    case _ => []
  }

  /** The visits of the subtree in a slot holding `o`, seen from slot `i`. */
  function SlotVisits(i: nat, o: Option<Node>): seq<Visit>
    decreases o, 2
  {
    match o
    case None => []
    case Some(c) => Under(i, Reached(c))
  }

  lemma ReachedSlotIs(n: Node, i: nat)
    requires i < |Slots(n)|
    ensures ReachedSlot(n, i) == SlotVisits(i, Slots(n)[i])
  {
  }

  lemma ReachedKidsStep(n: Node, k: nat)
    requires 0 < k <= |Slots(n)|
    ensures ReachedKids(n, k) == ReachedKids(n, k - 1) + SlotVisits(k - 1, Slots(n)[k - 1])
  {
    ReachedSlotIs(n, k - 1);
  }

  lemma {:induction false} ReachedKidsCover(n: Node, k: nat, j: nat)
    requires j < k <= |Slots(n)|
    ensures |ReachedSlot(n, j)| <= |ReachedKids(n, k)|
    decreases k
  {
    if j < k - 1 {
      ReachedKidsCover(n, k - 1, j);
    }
  }

  /** A child's walk is shorter than its parent's: the measure by which
      recursion through slots terminates. */
  lemma ChildSmaller(n: Node, i: nat)
    requires i < |Slots(n)| && Slots(n)[i].Some?
    ensures |Reached(Slots(n)[i].value)| < |Reached(n)|
  {
    ReachedKidsCover(n, |Slots(n)|, i);
    ReachedSlotIs(n, i);
  }

  /** No two visits share a path. */
  ghost predicate DistinctPaths(vs: seq<Visit>) {
    forall i, j :: 0 <= i < j < |vs| ==> vs[i].path != vs[j].path
  }

  lemma UnderDistinct(i: nat, vs: seq<Visit>)
    requires DistinctPaths(vs)
    ensures DistinctPaths(Under(i, vs))
    ensures forall v :: v in Under(i, vs) ==> |v.path| >= 1 && v.path[0] == i
  {
    var u := Under(i, vs);
    forall a, b | 0 <= a < b < |u| ensures u[a].path != u[b].path {
      assert u[a].path[1..] == vs[a].path && u[b].path[1..] == vs[b].path;
    }
  }

  /** A walk reaches each path once, so a path names one node of the tree. */
  lemma {:induction false} ReachedDistinct(n: Node)
    ensures DistinctPaths(Reached(n))
    decreases |Reached(n)|, 1
  {
    ReachedKidsDistinct(n, |Slots(n)|);
  }

  lemma {:induction false} ReachedKidsDistinct(n: Node, k: nat)
    requires k <= |Slots(n)|
    ensures DistinctPaths(ReachedKids(n, k))
    ensures forall v :: v in ReachedKids(n, k) ==> |v.path| >= 1 && v.path[0] < k
    decreases |Reached(n)|, 0, k
  {
    if k > 0 {
      ReachedKidsDistinct(n, k - 1);
      ReachedKidsStep(n, k);
      SlotDistinct(n, k - 1);
      DistinctAppend(ReachedKids(n, k - 1), SlotVisits(k - 1, Slots(n)[k - 1]), k - 1);
    }
  }

  lemma {:induction false} SlotDistinct(n: Node, i: nat)
    requires i < |Slots(n)|
    ensures DistinctPaths(SlotVisits(i, Slots(n)[i]))
    ensures forall v :: v in SlotVisits(i, Slots(n)[i]) ==> |v.path| >= 1 && v.path[0] == i
    decreases |Reached(n)|, 0, 0
  {
    if Slots(n)[i].Some? {
      ChildSmaller(n, i);
      ReachedDistinct(Slots(n)[i].value);
      UnderDistinct(i, Reached(Slots(n)[i].value));
    }
  }

  /** Visits below earlier slots and visits below slot `i` never share a path. */
  lemma DistinctAppend(front: seq<Visit>, below: seq<Visit>, i: nat)
    requires DistinctPaths(front) && DistinctPaths(below)
    requires forall v :: v in front ==> |v.path| >= 1 && v.path[0] < i
    requires forall v :: v in below ==> |v.path| >= 1 && v.path[0] == i
    ensures DistinctPaths(front + below)
    ensures forall v :: v in front + below ==> |v.path| >= 1 && v.path[0] < i + 1
  {
    var all := front + below;
    forall a, b | 0 <= a < b < |all| ensures all[a].path != all[b].path {
      if a < |front| <= b {
        assert all[a] in front && all[b] in below;
      }
    }
  }
}
