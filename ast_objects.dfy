/** The syntax tree as it is built: node objects holding child pointers and a
    back-pointer to their parent. A node's single child pointers are `fields`
    (null for an absent child) and the entries of its one child list, if it has
    one, are `items`; `hasList` says whether the list itself is present. The
    layout per kind is

      bnop  fields [left, right]
      unop  fields [argument]
      vdcl  fields [varName, varType, varIndex, scope]
      fncl  fields [functionName]            items: arguments
      fndf  fields [name, body]              items: parameters
      lmbd  fields [body]                    items: parameters
      case  fields [condition, result]
      csst                                   items: cases
      _let  fields [body]                    items: assignments
      incl  fields [includedPipeline, asName]
      pipe  fields [name]                    items: contents
      strt  fields [name]                    items: members
      _mod  fields [name]                    items: globalDecls

    and the leaves (_int, _flt, idnt, tpid) hold no pointers. */
module AstObjects {

  class AstNode {
    /** The four-character type tag. */
    const tag: string
    /** The name of an identifier or type. */
    const text: string
    /** The value of an integer, the dimension of a type, or an operator token. */
    const value: int
    var nodeID: nat
    var parent: AstNode?
    /** The type string an expression is bound to; empty until bound. */
    var exprType: string
    var fields: seq<AstNode?>
    var items: seq<AstNode>
    var hasList: bool

    /** The children construction points back at this node: for a Lambda its
        parameters only, otherwise every child present. */
    ghost function Wired(): set<AstNode>
      reads this
    {
      if tag == "lmbd" then set c | c in items
      else (set c | c in items) + NonNull(fields)
    }

    ghost predicate ParentsWired()
      reads this, Wired()
    {
      forall c :: c in Wired() ==> c.parent == this
    }

    ghost predicate Laid()
      reads this
    {
      Layout(tag, fields, items, hasList)
    }

    /** An expression is bound to a type when its type string is not empty. */
    function IsTypeBound(): (r: bool)
      reads this
      ensures r <==> |exprType| > 0
    {
      exprType != ""
    }

    /** A node storing what it is given and wiring nothing: no parent, id 0,
        no type. */
    constructor Stored(tag: string, text: string, value: int, fields: seq<AstNode?>,
                       items: seq<AstNode>, hasList: bool)
      ensures this.tag == tag && this.text == text && this.value == value
      ensures this.fields == fields && this.items == items && this.hasList == hasList
      ensures parent == null && nodeID == 0 && exprType == ""
    {
      this.tag, this.text, this.value := tag, text, value;
      this.fields, this.items, this.hasList := fields, items, hasList;
      nodeID, parent, exprType := 0, null, "";
    }

    constructor IntegerLit(value: int)
      requires -0x8000_0000_0000_0000 <= value < 0x8000_0000_0000_0000
      ensures tag == "_int" && this.value == value && fields == [] && items == []
      ensures parent == null && nodeID == 0 && exprType == ""
    {
      tag, text, this.value := "_int", "", value;
      fields, items, hasList := [], [], false;
      nodeID, parent, exprType := 0, null, "";
    }

    /** The float payload is not modelled. */
    constructor FloatLit()
      ensures tag == "_flt" && fields == [] && items == []
      ensures parent == null && nodeID == 0 && exprType == ""
    {
      tag, text, value := "_flt", "", 0;
      fields, items, hasList := [], [], false;
      nodeID, parent, exprType := 0, null, "";
    }

    constructor IdentLeaf(name: string)
      ensures tag == "idnt" && text == name && fields == [] && items == []
      ensures parent == null && nodeID == 0 && exprType == ""
    {
      tag, text, value := "idnt", name, 0;
      fields, items, hasList := [], [], false;
      nodeID, parent, exprType := 0, null, "";
    }

    /** A type name; the declaring code's default dimension is 1. */
    constructor TypeIdentLeaf(name: string, dimension: int)
      requires -0x8000_0000_0000_0000 <= dimension < 0x8000_0000_0000_0000
      ensures tag == "tpid" && text == name && value == dimension && fields == [] && items == []
      ensures parent == null && nodeID == 0 && exprType == ""
    {
      tag, text, value := "tpid", name, dimension;
      fields, items, hasList := [], [], false;
      nodeID, parent, exprType := 0, null, "";
    }

    /** Both operands are dereferenced, so both must be present. */
    constructor BinaryOp(op: int, left: AstNode, right: AstNode)
      modifies left`parent, right`parent
      ensures tag == "bnop" && value == op && fields == [left, right] && items == []
      ensures left.parent == this && right.parent == this && ParentsWired() && Laid()
      ensures parent == null && nodeID == 0 && exprType == ""
    {
      tag, text, value := "bnop", "", op;
      fields, items, hasList := [left, right], [], false;
      nodeID, parent, exprType := 0, null, "";
      new;
      left.parent := this;
      right.parent := this;
    }

    constructor UnaryOp(op: int, argument: AstNode)
      modifies argument`parent
      ensures tag == "unop" && value == op && fields == [argument] && items == []
      ensures argument.parent == this && ParentsWired() && Laid()
      ensures parent == null && nodeID == 0 && exprType == ""
    {
      tag, text, value := "unop", "", op;
      fields, items, hasList := [argument], [], false;
      nodeID, parent, exprType := 0, null, "";
      new;
      argument.parent := this;
    }

    /** A declaration without a scope; the parts present are wired. */
    constructor VarDecl(varName: AstNode?, varType: AstNode?, varIndex: AstNode?)
      modifies NonNull([varName, varType, varIndex])`parent
      ensures tag == "vdcl" && fields == [varName, varType, varIndex, null] && items == []
      ensures ParentsWired() && Laid()
      ensures parent == null && nodeID == 0 && exprType == ""
    {
      tag, text, value := "vdcl", "", 0;
      fields, items, hasList := [varName, varType, varIndex, null], [], false;
      nodeID, parent, exprType := 0, null, "";
      new;
      ghost var parts := [varName, varType, varIndex];
      assert varName == parts[0] && varType == parts[1] && varIndex == parts[2];
      if varName != null { varName.parent := this; }
      if varType != null { varType.parent := this; }
      if varIndex != null { varIndex.parent := this; }
    }

    constructor ScopedVarDecl(varName: AstNode?, varType: AstNode?, varIndex: AstNode?, scope: AstNode?)
      modifies NonNull([varName, varType, varIndex, scope])`parent
      ensures tag == "vdcl" && fields == [varName, varType, varIndex, scope] && items == []
      ensures ParentsWired() && Laid()
      ensures parent == null && nodeID == 0 && exprType == ""
    {
      tag, text, value := "vdcl", "", 0;
      fields, items, hasList := [varName, varType, varIndex, scope], [], false;
      nodeID, parent, exprType := 0, null, "";
      new;
      ghost var parts := [varName, varType, varIndex, scope];
      assert varName == parts[0] && varType == parts[1] && varIndex == parts[2] && scope == parts[3];
      if varName != null { varName.parent := this; }
      if varType != null { varType.parent := this; }
      if varIndex != null { varIndex.parent := this; }
      if scope != null { scope.parent := this; }
    }

    /** Takes the name, type and index of `o` and the new `scope`: all four
        fields of `o` are left null (its old scope is dropped), and the moved
        parts and the scope point back at the new node. */
    constructor StealVarDecl(o: AstNode, scope: AstNode?)
      requires o.tag == "vdcl" && |o.fields| == 4
      modifies o`fields, NonNull(o.fields[..3] + [scope])`parent
      ensures tag == "vdcl" && fields == old(o.fields[..3]) + [scope] && items == []
      ensures o.fields == [null, null, null, null]
      ensures ParentsWired() && Laid()
      ensures parent == null && nodeID == 0 && exprType == ""
    {
      tag, text, value := "vdcl", "", 0;
      fields, items, hasList := o.fields[..3] + [scope], [], false;
      nodeID, parent, exprType := 0, null, "";
      new;
      ghost var parts := old(o.fields[..3]) + [scope];
      assert fields == parts && fields[0] == parts[0] && fields[1] == parts[1] && fields[2] == parts[2] && scope == parts[3];
      o.fields := [null, null, null, null];
      if fields[0] != null { fields[0].parent := this; }
      if fields[1] != null { fields[1].parent := this; }
      if fields[2] != null { fields[2].parent := this; }
      if scope != null { scope.parent := this; }
    }

    /** The name is dereferenced; every argument of a present list is too. */
    constructor FunctionCall(name: AstNode, arguments: seq<AstNode>, hasList: bool)
      requires !hasList ==> arguments == []
      modifies name`parent, set c | c in arguments :: c`parent
      ensures tag == "fncl" && fields == [name] && items == arguments && this.hasList == hasList
      ensures ParentsWired() && Laid()
      ensures parent == null && nodeID == 0 && exprType == ""
    {
      tag, text, value := "fncl", "", 0;
      fields, items, this.hasList := [name], arguments, hasList;
      nodeID, parent, exprType := 0, null, "";
      new;
      name.parent := this;
      SetParents(arguments);
    }

    /** As declared, both the name and the body are dereferenced. */
    constructor FunctionDef(name: AstNode, parameters: seq<AstNode>, hasList: bool, body: AstNode?)
      requires !hasList ==> parameters == []
      requires FunctionDefDefined(name, body)
      modifies name`parent, (if body != null then {body} else {})`parent, set c | c in parameters :: c`parent
      ensures tag == "fndf" && fields == [name, body] && items == parameters && this.hasList == hasList
      ensures ParentsWired() && Laid()
      ensures parent == null && nodeID == 0 && exprType == ""
    {
      tag, text, value := "fndf", "", 0;
      fields, items, this.hasList := [name, body], parameters, hasList;
      nodeID, parent, exprType := 0, null, "";
      new;
      name.parent := this;
      body.parent := this;
      SetParents(parameters);
    }

    /** A built-in function has no body: the name and the parameters are
        wired, and the body stays null. */
    constructor IntrinsicFunction(name: AstNode, parameters: seq<AstNode>, hasList: bool)
      requires !hasList ==> parameters == []
      modifies name`parent, set c | c in parameters :: c`parent
      ensures tag == "fndf" && fields == [name, null] && items == parameters && this.hasList == hasList
      ensures ParentsWired()
      ensures parent == null && nodeID == 0 && exprType == ""
    {
      tag, text, value := "fndf", "", 0;
      fields, items, this.hasList := [name, null], parameters, hasList;
      nodeID, parent, exprType := 0, null, "";
      new;
      name.parent := this;
      SetParents(parameters);
    }

    /** Only the parameters are wired; the body keeps the parent it had. */
    constructor Lambda(parameters: seq<AstNode>, hasList: bool, body: AstNode?)
      requires !hasList ==> parameters == []
      modifies set c | c in parameters :: c`parent
      ensures tag == "lmbd" && fields == [body] && items == parameters && this.hasList == hasList
      ensures ParentsWired() && Laid()
      ensures body != null && body !in parameters ==> body.parent == old(body.parent)
      ensures parent == null && nodeID == 0 && exprType == ""
    {
      tag, text, value := "lmbd", "", 0;
      fields, items, this.hasList := [body], parameters, hasList;
      nodeID, parent, exprType := 0, null, "";
      new;
      SetParents(parameters);
    }

    constructor Case(condition: AstNode, result: AstNode)
      modifies condition`parent, result`parent
      ensures tag == "case" && fields == [condition, result] && items == []
      ensures ParentsWired() && Laid()
      ensures parent == null && nodeID == 0 && exprType == ""
    {
      tag, text, value := "case", "", 0;
      fields, items, hasList := [condition, result], [], false;
      nodeID, parent, exprType := 0, null, "";
      new;
      condition.parent := this;
      result.parent := this;
    }

    constructor PsiExpr(cases: seq<AstNode>, hasList: bool)
      requires !hasList ==> cases == []
      modifies set c | c in cases :: c`parent
      ensures tag == "csst" && fields == [] && items == cases && this.hasList == hasList
      ensures ParentsWired() && Laid()
      ensures parent == null && nodeID == 0 && exprType == ""
    {
      tag, text, value := "csst", "", 0;
      fields, items, this.hasList := [], cases, hasList;
      nodeID, parent, exprType := 0, null, "";
      new;
      SetParents(cases);
    }

    /** The assignment list and the body are both dereferenced. */
    constructor Let(assignments: seq<AstNode>, body: AstNode)
      modifies body`parent, set c | c in assignments :: c`parent
      ensures tag == "_let" && fields == [body] && items == assignments && hasList
      ensures ParentsWired() && Laid()
      ensures parent == null && nodeID == 0 && exprType == ""
    {
      tag, text, value := "_let", "", 0;
      fields, items, hasList := [body], assignments, true;
      nodeID, parent, exprType := 0, null, "";
      new;
      SetParents(assignments);
      body.parent := this;
    }

    constructor IncludeDecl(toInclude: AstNode, asName: AstNode?)
      modifies toInclude`parent, (if asName != null then {asName} else {})`parent
      ensures tag == "incl" && fields == [toInclude, asName] && items == []
      ensures ParentsWired() && Laid()
      ensures parent == null && nodeID == 0 && exprType == ""
    {
      tag, text, value := "incl", "", 0;
      fields, items, hasList := [toInclude, asName], [], false;
      nodeID, parent, exprType := 0, null, "";
      new;
      toInclude.parent := this;
      if asName != null { asName.parent := this; }
    }

    constructor Pipeline(name: AstNode, contents: seq<AstNode>, hasList: bool)
      requires !hasList ==> contents == []
      modifies name`parent, set c | c in contents :: c`parent
      ensures tag == "pipe" && fields == [name] && items == contents && this.hasList == hasList
      ensures ParentsWired() && Laid()
      ensures parent == null && nodeID == 0 && exprType == ""
    {
      tag, text, value := "pipe", "", 0;
      fields, items, this.hasList := [name], contents, hasList;
      nodeID, parent, exprType := 0, null, "";
      new;
      name.parent := this;
      SetParents(contents);
    }

    constructor StructDef(name: AstNode, members: seq<AstNode>, hasList: bool)
      requires !hasList ==> members == []
      modifies name`parent, set c | c in members :: c`parent
      ensures tag == "strt" && fields == [name] && items == members && this.hasList == hasList
      ensures ParentsWired() && Laid()
      ensures parent == null && nodeID == 0 && exprType == ""
    {
      tag, text, value := "strt", "", 0;
      fields, items, this.hasList := [name], members, hasList;
      nodeID, parent, exprType := 0, null, "";
      new;
      name.parent := this;
      SetParents(members);
    }

    /** The module makes its own name node from the given string. */
    constructor Module(name: string, globalDecls: seq<AstNode>, hasList: bool)
      requires !hasList ==> globalDecls == []
      modifies set c | c in globalDecls :: c`parent
      ensures tag == "_mod" && |fields| == 1 && fields[0] != null && fresh(fields[0])
      ensures fields[0].tag == "idnt" && fields[0].text == name
      ensures items == globalDecls && this.hasList == hasList
      ensures ParentsWired() && Laid()
      ensures parent == null && nodeID == 0 && exprType == ""
    {
      var nameNode := new AstNode.IdentLeaf(name);
      tag, text, value := "_mod", "", 0;
      fields, items, this.hasList := [nameNode], globalDecls, hasList;
      nodeID, parent, exprType := 0, null, "";
      new;
      nameNode.parent := this;
      SetParents(globalDecls);
    }

    /** Points every entry of `cs` back at this node. */
    method SetParents(cs: seq<AstNode>)
      modifies set c | c in cs :: c`parent
      ensures forall c :: c in cs ==> c.parent == this
    {
      for i := 0 to |cs|
        invariant forall j :: 0 <= j < i ==> cs[j].parent == this
      {
        assert cs[i] in cs;
        cs[i].parent := this;
      }
    }
  }

  /** The layout above, with every pointer the wiring dereferences present
      and no list entries when the list is absent. */
  ghost predicate Layout(tag: string, fields: seq<AstNode?>, items: seq<AstNode>, hasList: bool) {
    (!hasList ==> items == [])
    && match tag
       case "bnop" => |fields| == 2 && fields[0] != null && fields[1] != null && items == []
       case "case" => |fields| == 2 && fields[0] != null && fields[1] != null && items == []
       case "unop" => |fields| == 1 && fields[0] != null && items == []
       case "vdcl" => |fields| == 4 && items == []
       case "fncl" => |fields| == 1 && fields[0] != null
       case "fndf" => |fields| == 2 && fields[0] != null && fields[1] != null
       case "lmbd" => |fields| == 1
       case "csst" => fields == []
       case "_let" => |fields| == 1 && fields[0] != null && hasList
       case "incl" => |fields| == 2 && fields[0] != null && items == []
       case "pipe" => |fields| == 1 && fields[0] != null
       case "strt" => |fields| == 1 && fields[0] != null
       case "_mod" => |fields| == 1 && fields[0] != null
       case _ => fields == [] && items == []
  }

  /** The objects among `cs`, nulls left out. */
  function NonNull(cs: seq<AstNode?>): set<AstNode> {
    set c: AstNode | c in cs
  }

  /** What the function-definition constructor needs of its arguments for its
      dereferences to be defined: a name and a body. */
  ghost predicate FunctionDefDefined(name: AstNode?, body: AstNode?) {
    name != null && body != null
  }

  /** The built-in function as declared hands a null body to the
      function-definition constructor, which dereferences it. */
  lemma IntrinsicFunctionAsDeclared(name: AstNode?)
    ensures !FunctionDefDefined(name, null)
  {
  }
}
