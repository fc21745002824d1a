/** The tree of the Python front end: node objects that take an id from a
    module-wide counter when they are made, point back at their parent, and, for
    the translation unit and components, grow a member list by pushing. */
module PyAst {
  import opened Wrappers

  /** The module-wide counter: the last id handed out, -1 before the first. */
  class IdCounter {
    var last: int

    constructor ()
      ensures last == -1
    {
      last := -1;
    }

    /** Steps the counter and returns its new value. */
    method NextId() returns (id: int)
      modifies this
      ensures last == old(last) + 1 && id == last
    {
      last := last + 1;
      id := last;
    }
  }

  /** The ids a fresh counter hands out to `count` nodes made one after
      another: 0 first, and one more each time. */
  method FirstIds(count: nat) returns (ids: seq<int>)
    ensures |ids| == count
    ensures forall i :: 0 <= i < count ==> ids[i] == i
  {
    var counter := new IdCounter();
    ids := [];
    for i := 0 to count
      invariant |ids| == i && counter.last == i - 1
      invariant forall j :: 0 <= j < i ==> ids[j] == j
    {
      var id := counter.NextId();
      ids := ids + [id];
    }
  }

  datatype TypeRefShape = TypeRefShape(name: Option<string>, arraySpec: Option<int>)

  /** An expression tree as a value: what a node and the nodes below it
      hold, ids aside. */
  datatype Expr =
    | FnCallE(ref: Option<string>, args: seq<Expr>)
    | BinaryE(op: string, left: Expr, right: Expr)
    | UnaryE(op: string, operand: Expr)
    | IntegerE(value: int)
    | VarDeclE(name: Option<string>, stage: Option<string>, typeref: Option<TypeRefShape>, index: Option<int>)
    | VarRefE(ref: Option<string>)

  /** The number of nodes an expression is made of. */
  function ExprSize(e: Expr): (n: nat)
    ensures n >= 1
  {
    match e
    case FnCallE(_, args) => 1 + ArgsSize(args)
    case BinaryE(_, l, r) => 1 + ExprSize(l) + ExprSize(r)
    case UnaryE(_, a) => 1 + ExprSize(a)
    case VarDeclE(_, _, t, _) => if t.Some? then 2 else 1
    case _ => 1
  }

  function ArgsSize(es: seq<Expr>): nat {
    if es == [] then 0 else ArgsSize(es[..|es| - 1]) + ExprSize(es[|es| - 1])
  }

  /** A node. `kind` is its class; `opName` the class's operator name;
      `operands` the arguments of a call, the operands of an operation, or the
      type of a declaration; `members` the globals of a translation unit or
      the items of a component. */
  class PyNode {
    const id: int
    const kind: string
    const opName: string
    const name: Option<string>
    const stage: Option<string>
    const number: Option<int>
    const operands: seq<PyNode>
    ghost const height: nat
    var parent: PyNode?
    var members: seq<PyNode>

    /** An expression node whose operands, all the way down, are expression
        nodes of the right number (a declaration's operand is its type). */
    ghost predicate IsExpr()
      decreases height
    {
      match kind
      case "FnCall" => forall c :: c in operands ==> c.height < height && c.IsExpr()
      case "BinaryOp" => |operands| == 2 && forall c :: c in operands ==> c.height < height && c.IsExpr()
      case "UnaryOp" => |operands| == 1 && forall c :: c in operands ==> c.height < height && c.IsExpr()
      case "VarDecl" => |operands| <= 1 && forall c :: c in operands ==> c.kind == "TypeRef"
      case "Integer" => operands == [] && number.Some?
      case "VarRef" => operands == []
      case _ => false
    }

    constructor TU(ids: IdCounter)
      modifies ids
      ensures id == ids.last == old(ids.last) + 1
      ensures kind == "TU" && operands == [] && members == [] && parent == null
    {
      var i := ids.NextId();
      id, kind, opName, name, stage, number := i, "TU", "", None, None, None;
      operands, height, parent, members := [], 0, null, [];
    }

    constructor Component(ids: IdCounter, name: Option<string>)
      modifies ids
      ensures id == ids.last == old(ids.last) + 1
      ensures kind == "Component" && this.name == name && operands == [] && members == [] && parent == null
    {
      var i := ids.NextId();
      id, kind, opName, this.name, stage, number := i, "Component", "", name, None, None;
      operands, height, parent, members := [], 0, null, [];
    }

    /** A pipeline is a component meant for export; it pushes the same way. */
    constructor Pipeline(ids: IdCounter, name: Option<string>)
      modifies ids
      ensures id == ids.last == old(ids.last) + 1
      ensures kind == "Pipeline" && this.name == name && operands == [] && members == [] && parent == null
    {
      var i := ids.NextId();
      id, kind, opName, this.name, stage, number := i, "Pipeline", "", name, None, None;
      operands, height, parent, members := [], 0, null, [];
    }

    constructor TypeRef(ids: IdCounter, name: Option<string>, arraySpec: Option<int>)
      modifies ids
      ensures id == ids.last == old(ids.last) + 1
      ensures kind == "TypeRef" && this.name == name && number == arraySpec && operands == [] && parent == null
    {
      var i := ids.NextId();
      id, kind, opName, this.name, stage, number := i, "TypeRef", "", name, None, arraySpec;
      operands, height, parent, members := [], 0, null, [];
    }

    /** A call; a missing argument list is an empty one. Every argument points
        back at the call. */
    constructor FnCall(ids: IdCounter, ref: Option<string>, args: seq<PyNode>)
      modifies ids, set a | a in args :: a`parent
      ensures id == ids.last == old(ids.last) + 1
      ensures kind == "FnCall" && name == ref && operands == args && parent == null
      ensures forall a :: a in args ==> a.parent == this
      ensures (forall a :: a in args ==> a.IsExpr()) ==> IsExpr()
    {
      var i := ids.NextId();
      id, kind, opName, name, stage, number := i, "FnCall", "", ref, None, None;
      operands, height, parent, members := args, MaxHeight(args) + 1, null, [];
      new;
      for k := 0 to |args|
        invariant id == ids.last == old(ids.last) + 1 && parent == null
        invariant forall j :: 0 <= j < k ==> args[j].parent == this
      {
        assert args[k] in args;
        args[k].parent := this;
      }
    }

    /** An operation of class `opName` on two operands, both pointing back at it. */
    constructor BinaryOp(ids: IdCounter, opName: string, left: PyNode, right: PyNode)
      modifies ids, left`parent, right`parent
      ensures id == ids.last == old(ids.last) + 1
      ensures kind == "BinaryOp" && this.opName == opName && operands == [left, right] && parent == null
      ensures left.parent == this && right.parent == this
      ensures left.IsExpr() && right.IsExpr() ==> IsExpr()
    {
      var i := ids.NextId();
      id, kind, this.opName, name, stage, number := i, "BinaryOp", opName, None, None, None;
      operands, height, parent, members := [left, right], MaxHeight([left, right]) + 1, null, [];
      new;
      left.parent := this;
      right.parent := this;
    }

    constructor UnaryOp(ids: IdCounter, opName: string, operand: PyNode)
      modifies ids, operand`parent
      ensures id == ids.last == old(ids.last) + 1
      ensures kind == "UnaryOp" && this.opName == opName && operands == [operand] && parent == null
      ensures operand.parent == this
      ensures operand.IsExpr() ==> IsExpr()
    {
      var i := ids.NextId();
      id, kind, this.opName, name, stage, number := i, "UnaryOp", opName, None, None, None;
      operands, height, parent, members := [operand], operand.height + 1, null, [];
      new;
      operand.parent := this;
    }

    constructor Integer(ids: IdCounter, value: int)
      modifies ids
      ensures id == ids.last == old(ids.last) + 1
      ensures kind == "Integer" && number == Some(value) && operands == [] && parent == null
      ensures IsExpr()
    {
      var i := ids.NextId();
      id, kind, opName, name, stage, number := i, "Integer", "", None, None, Some(value);
      operands, height, parent, members := [], 0, null, [];
    }

    /** A declaration; its type, when given, points back at it. */
    constructor VarDecl(ids: IdCounter, name: Option<string>, stage: Option<string>,
                        typeref: PyNode?, index: Option<int>)
      requires typeref != null ==> typeref.kind == "TypeRef"
      modifies ids, (if typeref != null then {typeref} else {})`parent
      ensures id == ids.last == old(ids.last) + 1
      ensures kind == "VarDecl" && this.name == name && this.stage == stage && number == index
      ensures operands == (if typeref != null then [typeref] else []) && parent == null
      ensures typeref != null ==> typeref.parent == this
      ensures IsExpr()
    {
      var i := ids.NextId();
      id, kind, opName, this.name, this.stage, number := i, "VarDecl", "", name, stage, index;
      operands, height, parent, members := (if typeref != null then [typeref] else []), 0, null, [];
      new;
      if typeref != null {
        typeref.parent := this;
      }
    }

    constructor VarRef(ids: IdCounter, name: Option<string>)
      modifies ids
      ensures id == ids.last == old(ids.last) + 1
      ensures kind == "VarRef" && this.name == name && operands == [] && parent == null
      ensures IsExpr()
    {
      var i := ids.NextId();
      id, kind, opName, this.name, stage, number := i, "VarRef", "", name, None, None;
      operands, height, parent, members := [], 0, null, [];
    }

    /** Appends `child` to the globals of a translation unit or the items of a
        component and points it back at this node. */
    method Push(child: PyNode)
      requires kind == "TU" || kind == "Component" || kind == "Pipeline"
      modifies this`members, child`parent
      ensures members == old(members) + [child] && child.parent == this
    {
      members := members + [child];
      child.parent := this;
    }
  }

  /** The greatest height among `ps`, 0 for none. */
  ghost function MaxHeight(ps: seq<PyNode>): (h: nat)
    ensures forall p :: p in ps ==> p.height <= h
  {
    if ps == [] then 0
    else
      var rest := MaxHeight(ps[1..]);
      assert forall p :: p in ps ==> p == ps[0] || p in ps[1..];
      if ps[0].height > rest then ps[0].height else rest
  }

  /** The value an expression node stands for. */
  ghost function ShapeOf(p: PyNode): Expr
    requires p.IsExpr()
    decreases p.height, 1
  {
    match p.kind
    case "FnCall" => FnCallE(p.name, ShapesOf(p.operands, p.height))
    case "BinaryOp" =>
      assert p.operands[0] in p.operands && p.operands[1] in p.operands;
      BinaryE(p.opName, ShapeOf(p.operands[0]), ShapeOf(p.operands[1]))
    case "UnaryOp" =>
      assert p.operands[0] in p.operands;
      UnaryE(p.opName, ShapeOf(p.operands[0]))
    case "VarDecl" =>
      var t := if p.operands == [] then None
               else Some(TypeRefShape(p.operands[0].name, p.operands[0].number));
      VarDeclE(p.name, p.stage, t, p.number)
    case "Integer" => IntegerE(p.number.value)
    case "VarRef" => VarRefE(p.name)
  }

  ghost function ShapesOf(ps: seq<PyNode>, bound: nat): (r: seq<Expr>)
    requires forall c :: c in ps ==> c.height < bound && c.IsExpr()
    ensures |r| == |ps|
    decreases bound, 0, |ps|
  {
    if ps == [] then []
    else
      assert ps[0] in ps && forall c :: c in ps[1..] ==> c in ps;
      [ShapeOf(ps[0])] + ShapesOf(ps[1..], bound)
  }

  /** Operator class names: each becomes a class of that name. */
  const BinopNames: seq<string> := ["Gets", "Add", "Sub", "Mult", "Div", "Dot"]
  const UnopNames: seq<string> := []

  /** Makes one operator class per name and files it under that name; an
      operator class is known here by its name. */
  method OperatorTable(names: seq<string>) returns (table: map<string, string>)
    ensures forall k :: k in table <==> k in names
    ensures forall k :: k in table ==> table[k] == k
  {
    table := map[];
    for i := 0 to |names|
      invariant forall k :: k in table <==> k in names[..i]
      invariant forall k :: k in table ==> table[k] == k
    {
      assert names[..i + 1] == names[..i] + [names[i]];
      table := table[names[i] := names[i]];
    }
    assert names[..|names|] == names;
  }

  /** The binary table holds exactly the six operators, each under its own
      name; the unary one is empty. */
  method OperatorTables() returns (binops: map<string, string>, unops: map<string, string>)
    ensures binops.Keys == {"Gets", "Add", "Sub", "Mult", "Div", "Dot"}
    ensures forall k :: k in binops ==> binops[k] == k
    ensures unops == map[]
  {
    binops := OperatorTable(BinopNames);
    unops := OperatorTable(UnopNames);
    assert forall k :: k in binops.Keys <==> k in BinopNames;
  }
}
