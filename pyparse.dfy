/** Conversion of a parse tree into the Python front end's tree. Each step is
    a pure function saying what the conversion yields, or which exception it
    raises, and a method that builds the node objects and is proved to build
    exactly that. */
module PyParse {
  import opened Wrappers
  import opened Text
  import opened PyAst

  /** A parse-tree node: a rule node has a name and children; a token has no
      name, and has a type and its text. A child may be absent. */
  datatype PNode = PNode(name: Option<string>, ptype: Option<string>, value: string, kids: seq<Option<PNode>>)

  /** The exceptions a conversion can raise. */
  datatype Fault =
    | ConversionError(message: string)   // raised by the conversion itself
    | NoSuchOperator(key: Option<string>) // a name missing from an operator table
    | NoChild                             // a child index past the last child
    | NotANode                            // an absent value used as a node
    | NotANumber                          // token text that is not an integer

  /** `n[i]`; past the last child is an error. */
  function Child(n: PNode, i: nat): (r: Result<Option<PNode>, Fault>)
    ensures r.Success? <==> i < |n.kids|
    ensures r.Success? ==> r.value == n.kids[i]
    ensures r.Failure? ==> r.error == NoChild
  {
    if i < |n.kids| then Success(n.kids[i]) else Failure(NoChild)
  }

  /** `n[i]` where `n` may itself be absent. */
  function ChildOf(n: Option<PNode>, i: nat): (r: Result<Option<PNode>, Fault>)
    ensures n.None? ==> r == Failure(NotANode)
    ensures n.Some? ==> r == Child(n.value, i)
  {
    if n.None? then Failure(NotANode) else Child(n.value, i)
  }

  /** `s[:-1]`: all but the last character, and nothing of an empty string. */
  function DropLast(s: string): (r: string)
    ensures s == [] ==> r == []
    ensures s != [] ==> r + [s[|s| - 1]] == s
  {
    if s == [] then [] else s[..|s| - 1]
  }

  /** The token types whose text carries one trailing marker character. */
  const MarkedTypes: set<string> := {"STAGEREF", "VARDECL", "FNCALL"}

  /** The name a token spells: a marked token loses its last character, an
      identifier is kept whole, any other token gives nothing; a rule node is
      an error. */
  function CastIdent(n: Option<PNode>): (r: Result<Option<string>, Fault>)
    ensures n.None? ==> r == Success(None)
    ensures r.Failure? <==> n.Some? && n.value.name.Some?
    ensures n.Some? && n.value.name.None? && n.value.ptype.Some? && n.value.ptype.value in MarkedTypes
            ==> r == Success(Some(DropLast(n.value.value)))
    ensures n.Some? && n.value.name.None? && n.value.ptype == Some("IDENT") ==> r == Success(Some(n.value.value))
    ensures r.Success? && r.value.Some? ==>
              n.Some? && n.value.ptype.Some? && (n.value.ptype.value in MarkedTypes || n.value.ptype.value == "IDENT")
  {
    if n.None? then Success(None)
    else if n.value.name.Some? then
      Failure(ConversionError("Parse conversion error. Converting ident, but non-terminal found."))
    else if n.value.ptype.Some? && n.value.ptype.value in MarkedTypes then Success(Some(DropLast(n.value.value)))
    else if n.value.ptype == Some("IDENT") then Success(Some(n.value.value))
    else Success(None)
  }

  /** How a token type is shown in an error message. */
  function TypeRepr(t: Option<string>): string {
    if t.None? then "None" else "'" + t.value + "'"
  }

  /** The integer a token spells; any token type but INTEGER is an error. */
  function CastInteger(n: Option<PNode>): (r: Result<Option<int>, Fault>)
    ensures n.None? ==> r == Success(None)
    ensures n.Some? && n.value.ptype != Some("INTEGER") ==> r.Failure? && r.error.ConversionError?
    ensures n.Some? && n.value.ptype == Some("INTEGER") ==>
              (r.Success? <==> ParseInt(n.value.value).Some?)
              && (r.Success? ==> r.value == ParseInt(n.value.value))
  {
    if n.None? then Success(None)
    else if n.value.ptype != Some("INTEGER") then
      Failure(ConversionError("Parse conversion error. Expected INTEGER type, got" + TypeRepr(n.value.ptype)))
    else
      match ParseInt(n.value.value)
      case None => Failure(NotANumber)
      case Some(v) => Success(Some(v))
  }

  /** An INTEGER token spelling a number converts back to that number. */
  lemma CastIntegerRoundTrip(i: int, name: Option<string>, kids: seq<Option<PNode>>)
    ensures CastInteger(Some(PNode(None, Some("INTEGER"), IntToString(i), kids))) == Success(Some(i))
  {
    IntToStringRoundTrip(i);
  }

  /** The entries of `s`, all present. */
  function Values<T>(s: seq<Option<T>>): (r: seq<T>)
    requires forall j :: 0 <= j < |s| ==> s[j].Some?
    ensures |r| == |s| && forall j :: 0 <= j < |s| ==> r[j] == s[j].value
  {
    if s == [] then [] else Values(s[..|s| - 1]) + [s[|s| - 1].value]
  }

  /** Only an INTEGER token converts to a value: an Integer node. */
  function ConvertedTerminal(p: PNode): (r: Result<Option<Expr>, Fault>)
    ensures p.ptype != Some("INTEGER") ==> r == Success(None)
    ensures r.Success? && r.value.Some? ==> r.value.value.IntegerE?
  {
    if p.ptype == Some("INTEGER") then
      var v :- CastInteger(Some(p));
      Success(Some(IntegerE(v.value)))
    else Success(None)
  }

  function ConvertedTypeRef(n: Option<PNode>): (r: Result<Option<TypeRefShape>, Fault>)
    ensures n.None? ==> r == Success(None)
  {
    if n.None? then Success(None)
    else
      var c0 :- ChildOf(n, 0);
      var name :- CastIdent(c0);
      var c1 :- ChildOf(n, 1);
      var spec :- CastInteger(c1);
      Success(Some(TypeRefShape(name, spec)))
  }

  /** A declaration: its name from child 0, its type from the first child of
      child 1, its index from the first child of child 2. */
  function ConvertedVarDecl(n: Option<PNode>, stage: Option<string>): (r: Result<Expr, Fault>)
    ensures r.Success? ==> r.value.VarDeclE? && r.value.stage == stage
  {
    var c0 :- ChildOf(n, 0);
    var name :- CastIdent(c0);
    var t :- ChildOf(n, 1);
    var t0 :- ChildOf(t, 0);
    var tref :- ConvertedTypeRef(t0);
    var i :- ChildOf(n, 2);
    var i0 :- ChildOf(i, 0);
    var idx :- CastInteger(i0);
    Success(VarDeclE(name, stage, tref, idx))
  }

  /** What converting an expression yields. The four named forms come first;
      otherwise two children make a binary operation and one a unary one,
      named by the node; a token is a terminal value. */
  function ConvertedExpr(n: Option<PNode>): (r: Result<Option<Expr>, Fault>)
    ensures n.None? ==> r == Success(None)
    decreases n, 0
  {
    if n.None? then Success(None)
    else
      var p := n.value;
      if p.name == Some("staged_vardecl") then ConvertedStaged(p)
      else if p.name == Some("vardecl") then
        var e :- ConvertedVarDecl(n, None);
        Success(Some(e))
      else if p.name == Some("fncall") then ConvertedFnCall(p)
      else if p.name == Some("varref") then
        var c0 :- Child(p, 0);
        var ref :- CastIdent(c0);
        Success(Some(VarRefE(ref)))
      else if |p.kids| == 2 then ConvertedBinary(p)
      else if |p.kids| == 1 then
        // the unary table is empty: every lookup in it fails
        Failure(NoSuchOperator(p.name))
      else if p.ptype.Some? && p.ptype.value != "" then ConvertedTerminal(p)
      else if p.name.None? then Failure(NotANode)
      else Failure(ConversionError("Unknown expression type: " + p.name.value))
  }

  /** A staged declaration: the declaration is child 1, its stage child 0,
      and child 1 is taken before the stage is read. */
  function ConvertedStaged(p: PNode): (r: Result<Option<Expr>, Fault>)
    ensures r.Success? ==> r.value.Some? && r.value.value.VarDeclE?
  {
    var d :- Child(p, 1);
    var stage :- CastIdent(p.kids[0]);
    var e :- ConvertedVarDecl(d, stage);
    Success(Some(e))
  }

  /** A call: its name from child 0, its arguments the children of child 1,
      each of which must convert to a node. */
  function ConvertedFnCall(p: PNode): (r: Result<Option<Expr>, Fault>)
    ensures r.Success? ==> r.value.Some? && r.value.value.FnCallE?
    decreases p, 1
  {
    var c0 :- Child(p, 0);
    var ref :- CastIdent(c0);
    var a :- Child(p, 1);
    if a.None? then Failure(NotANode)
    else
      var args :- CallArgs(a.value);
      Success(Some(FnCallE(ref, args)))
  }

  /** The arguments of a call: all children converted first, then each must
      be present. */
  function CallArgs(owner: PNode): (r: Result<seq<Expr>, Fault>)
    decreases owner, |owner.kids| + 1
  {
    var args :- ConvertedArgs(owner, |owner.kids|);
    if forall j :: 0 <= j < |args| ==> args[j].Some? then Success(Values(args))
    else Failure(NotANode)
  }

  /** A two-child node: the operator named by the node, looked up before its
      operands are converted; both operands must be present. */
  function ConvertedBinary(p: PNode): (r: Result<Option<Expr>, Fault>)
    requires |p.kids| == 2
    ensures r.Success? ==> r.value.Some? && r.value.value.BinaryE? && r.value.value.op in BinopNames
    ensures p.name.None? || p.name.value !in BinopNames ==> r == Failure(NoSuchOperator(p.name))
    decreases p, 1
  {
    if p.name.None? || p.name.value !in BinopNames then Failure(NoSuchOperator(p.name))
    else
      var l :- ConvertedExpr(p.kids[0]);
      var r :- ConvertedExpr(p.kids[1]);
      if l.None? || r.None? then Failure(NotANode) else Success(Some(BinaryE(p.name.value, l.value, r.value)))
  }

  /** The four named forms whose conversion does not depend on the number
      of children. */
  predicate NamedForm(p: PNode) {
    p.name == Some("staged_vardecl") || p.name == Some("vardecl") || p.name == Some("fncall") || p.name == Some("varref")
  }

  /** What a converted expression is: a declaration for the two declaration
      forms, a call, a reference, a binary operation named by the node for any
      other node of two children, and an Integer for an INTEGER token; a node
      of one child that is not a named form always fails, and only a token of
      another type converts to nothing. */
  lemma ConvertedExprForms(p: PNode)
    ensures var r := ConvertedExpr(Some(p));
      r.Success? && r.value.Some? ==>
        (r.value.value.VarDeclE? <==> p.name == Some("staged_vardecl") || p.name == Some("vardecl"))
        && (r.value.value.FnCallE? <==> p.name == Some("fncall"))
        && (r.value.value.VarRefE? <==> p.name == Some("varref"))
        && (r.value.value.BinaryE? <==> !NamedForm(p) && |p.kids| == 2)
        && (r.value.value.BinaryE? ==> p.name == Some(r.value.value.op))
        && (r.value.value.IntegerE? <==> !NamedForm(p) && |p.kids| != 1 && |p.kids| != 2)
    ensures !NamedForm(p) && |p.kids| == 1 ==> ConvertedExpr(Some(p)) == Failure(NoSuchOperator(p.name))
    ensures ConvertedExpr(Some(p)) == Success(None) <==>
      !NamedForm(p) && |p.kids| != 1 && |p.kids| != 2
      && p.ptype.Some? && p.ptype.value != "" && p.ptype.value != "INTEGER"
  {
  }

  /** The first `k` children of `owner` converted in order; the first failure
      is the result. */
  function ConvertedArgs(owner: PNode, k: nat): (r: Result<seq<Option<Expr>>, Fault>)
    requires k <= |owner.kids|
    ensures r.Success? ==> |r.value| == k
    decreases owner, k
  {
    if k == 0 then Success([])
    else
      var prev :- ConvertedArgs(owner, k - 1);
      var x :- ConvertedExpr(owner.kids[k - 1]);
      Success(prev + [x])
  }

  /** Once a prefix of the arguments fails, every longer prefix fails the
      same way. */
  lemma {:induction false} ArgsFailureStays(owner: PNode, k: nat, m: nat)
    requires k <= m <= |owner.kids| && ConvertedArgs(owner, k).Failure?
    ensures ConvertedArgs(owner, m) == ConvertedArgs(owner, k)
    decreases m - k
  {
    if k < m {
      ArgsFailureStays(owner, k, m - 1);
    }
  }

  /** One more argument: its failure is the failure of the whole list, and
      its value otherwise extends the prefix. */
  lemma ArgsStep(owner: PNode, i: nat, exprs: seq<Option<Expr>>)
    requires i < |owner.kids| && ConvertedArgs(owner, i) == Success(exprs)
    ensures ConvertedExpr(owner.kids[i]).Failure? ==>
              ConvertedArgs(owner, |owner.kids|) == Failure(ConvertedExpr(owner.kids[i]).error)
    ensures ConvertedExpr(owner.kids[i]).Success? ==>
              ConvertedArgs(owner, i + 1) == Success(exprs + [ConvertedExpr(owner.kids[i]).value])
  {
    if ConvertedExpr(owner.kids[i]).Failure? {
      ArgsFailureStays(owner, i + 1, |owner.kids|);
    }
  }

  /** The number of nodes a converted value is made of. */
  function OptSize(e: Option<Expr>): nat {
    if e.None? then 0 else ExprSize(e.value)
  }

  function OptsSize(es: seq<Option<Expr>>): nat {
    if es == [] then 0 else OptsSize(es[..|es| - 1]) + OptSize(es[|es| - 1])
  }

  lemma {:induction false} OptsSizeValues(es: seq<Option<Expr>>)
    requires forall j :: 0 <= j < |es| ==> es[j].Some?
    ensures OptsSize(es) == ArgsSize(Values(es))
    decreases |es|
  {
    if es != [] {
      var init := es[..|es| - 1];
      OptsSizeValues(init);
      assert Values(es)[..|es| - 1] == Values(init);
    }
  }

  /** `r` is the node built for `e`, and is absent exactly when `e` is. */
  ghost predicate Built(r: Option<PyNode>, e: Option<Expr>) {
    (r.Some? <==> e.Some?) && (r.Some? ==> r.value.IsExpr() && ShapeOf(r.value) == e.value)
  }

  lemma {:induction false} ShapesOfEach(ps: seq<PyNode>, bound: nat, j: nat)
    requires forall c :: c in ps ==> c.height < bound && c.IsExpr()
    requires j < |ps|
    ensures ShapesOf(ps, bound)[j] == ShapeOf(ps[j])
    decreases j
  {
    if j > 0 {
      assert forall c :: c in ps[1..] ==> c in ps;
      ShapesOfEach(ps[1..], bound, j - 1);
    }
  }

  lemma ShapesOfValues(ps: seq<PyNode>, bound: nat, shapes: seq<Expr>)
    requires forall c :: c in ps ==> c.height < bound && c.IsExpr()
    requires |shapes| == |ps| && forall j :: 0 <= j < |ps| ==> ShapeOf(ps[j]) == shapes[j]
    ensures ShapesOf(ps, bound) == shapes
  {
    forall j | 0 <= j < |ps| ensures ShapesOf(ps, bound)[j] == shapes[j] {
      ShapesOfEach(ps, bound, j);
    }
  }

  /** `ps` are expression nodes whose shapes are `shapes`, in order. */
  ghost predicate ShapesAre(ps: seq<PyNode>, shapes: seq<Expr>) {
    |ps| == |shapes| && forall j :: 0 <= j < |ps| ==> ps[j].IsExpr() && ShapeOf(ps[j]) == shapes[j]
  }

  /** The arguments are all present exactly when every node was built; their
      nodes then have the arguments' shapes and count their sizes. */
  lemma ArgsOutcome(owner: PNode, nodes: seq<Option<PyNode>>, exprs: seq<Option<Expr>>)
    requires ConvertedArgs(owner, |owner.kids|) == Success(exprs)
    requires |nodes| == |exprs| && forall j :: 0 <= j < |nodes| ==> Built(nodes[j], exprs[j])
    ensures !(forall j :: 0 <= j < |nodes| ==> nodes[j].Some?) ==> CallArgs(owner) == Failure(NotANode)
    ensures (forall j :: 0 <= j < |nodes| ==> nodes[j].Some?) ==>
              (forall j :: 0 <= j < |exprs| ==> exprs[j].Some?)
              && CallArgs(owner) == Success(Values(exprs))
              && ShapesAre(Values(nodes), Values(exprs))
              && OptsSize(exprs) == ArgsSize(Values(exprs))
  {
    if !(forall j :: 0 <= j < |nodes| ==> nodes[j].Some?) {
      var j :| 0 <= j < |nodes| && nodes[j].None?;
      assert exprs[j].None?;
    } else {
      OptsSizeValues(exprs);
    }
  }

  lemma ArgsSizeSnoc(es: seq<Expr>, e: Expr)
    ensures ArgsSize(es + [e]) == ArgsSize(es) + ExprSize(e)
  {
    assert (es + [e])[..|es|] == es;
  }

  lemma GlobalsSizeSnoc(gs: seq<Global>, g: Global)
    ensures GlobalsSize(gs + [g]) == GlobalsSize(gs) + GlobalSize(g)
  {
    assert (gs + [g])[..|gs|] == gs;
  }

  lemma ValuesSnoc<T>(s: seq<Option<T>>, x: Option<T>)
    requires forall j :: 0 <= j < |s| ==> s[j].Some?
    requires x.Some?
    ensures Values(s + [x]) == Values(s) + [x.value]
  {
    assert (s + [x])[..|s|] == s;
  }

  /** Builds the node of a terminal value. */
  method ConvertTerminalValue(ids: IdCounter, p: PNode) returns (r: Result<Option<PyNode>, Fault>)
    modifies ids
    ensures r.Failure? <==> ConvertedTerminal(p).Failure?
    ensures r.Failure? ==> r.error == ConvertedTerminal(p).error
    ensures r.Success? ==> Built(r.value, ConvertedTerminal(p).value)
    ensures r.Success? ==> ids.last == old(ids.last) + OptSize(ConvertedTerminal(p).value)
    ensures r.Success? && r.value.Some? ==>
              fresh(r.value.value) && r.value.value.parent == null && r.value.value.id == ids.last
  {
    if p.ptype == Some("INTEGER") {
      var v :- CastInteger(Some(p));
      var node := new PyNode.Integer(ids, v.value);
      return Success(Some(node));
    }
    return Success(None);
  }

  /** Builds the node of a type, or nothing for an absent one. */
  method ConvertTypeRef(ids: IdCounter, n: Option<PNode>) returns (r: Result<PyNode?, Fault>)
    modifies ids
    ensures r.Failure? <==> ConvertedTypeRef(n).Failure?
    ensures r.Failure? ==> r.error == ConvertedTypeRef(n).error
    ensures r.Success? ==> (r.value == null <==> ConvertedTypeRef(n).value.None?)
    ensures r.Success? && r.value != null ==>
              fresh(r.value) && r.value.kind == "TypeRef" && r.value.parent == null
              && ConvertedTypeRef(n).value == Some(TypeRefShape(r.value.name, r.value.number))
              && r.value.id == ids.last == old(ids.last) + 1
    ensures r.Success? && r.value == null ==> ids.last == old(ids.last)
  {
    if n.None? {
      return Success(null);
    }
    var c0 :- ChildOf(n, 0);
    var name :- CastIdent(c0);
    var c1 :- ChildOf(n, 1);
    var spec :- CastInteger(c1);
    var node := new PyNode.TypeRef(ids, name, spec);
    return Success(node);
  }

  method ConvertVarDecl(ids: IdCounter, n: Option<PNode>, stage: Option<string>) returns (r: Result<PyNode, Fault>)
    modifies ids
    ensures r.Failure? <==> ConvertedVarDecl(n, stage).Failure?
    ensures r.Failure? ==> r.error == ConvertedVarDecl(n, stage).error
    ensures r.Success? ==>
              fresh(r.value) && r.value.parent == null && r.value.id == ids.last
              && Built(Some(r.value), Some(ConvertedVarDecl(n, stage).value))
              && ids.last == old(ids.last) + ExprSize(ConvertedVarDecl(n, stage).value)
              && forall c :: c in r.value.operands ==> c.id < r.value.id
  {
    var c0 :- ChildOf(n, 0);
    var name :- CastIdent(c0);
    var t :- ChildOf(n, 1);
    var t0 :- ChildOf(t, 0);
    var tref :- ConvertTypeRef(ids, t0);
    var i :- ChildOf(n, 2);
    var i0 :- ChildOf(i, 0);
    var idx :- CastInteger(i0);
    var node := new PyNode.VarDecl(ids, name, stage, tref, idx);
    return Success(node);
  }

  /** `t` is the root of a tree just built: no parent yet, the last id handed
      out, and above the ids of its operands. */
  ghost predicate Rooted(t: PyNode, last: int)
    reads t
  {
    t.parent == null && t.id == last && forall c :: c in t.operands ==> c.id < t.id
  }

  /** The conversion built the nodes `s` describes, or raised its error. */
  ghost predicate Matches(r: Result<Option<PyNode>, Fault>, s: Result<Option<Expr>, Fault>) {
    (r.Failure? <==> s.Failure?)
    && (r.Failure? ==> r.error == s.error)
    && (r.Success? ==> Built(r.value, s.value))
  }

  /** Builds the tree of an expression: operands are built first, in order,
      then the node that holds them, so a node's id is above its operands'. */
  method ConvertExpr(ids: IdCounter, n: Option<PNode>) returns (r: Result<Option<PyNode>, Fault>)
    modifies ids
    ensures Matches(r, ConvertedExpr(n))
    ensures r.Success? ==> ids.last == old(ids.last) + OptSize(ConvertedExpr(n).value)
    ensures r.Success? && r.value.Some? ==> fresh(r.value.value) && Rooted(r.value.value, ids.last)
    decreases n, 0
  {
    if n.None? {
      return Success(None);
    }
    var p := n.value;
    if p.name == Some("staged_vardecl") {
      var d :- Child(p, 1);
      var stage :- CastIdent(p.kids[0]);
      var e :- ConvertVarDecl(ids, d, stage);
      return Success(Some(e));
    } else if p.name == Some("vardecl") {
      var e :- ConvertVarDecl(ids, n, None);
      return Success(Some(e));
    } else if p.name == Some("fncall") {
      r := ConvertFnCall(ids, p);
    } else if p.name == Some("varref") {
      var c0 :- Child(p, 0);
      var ref :- CastIdent(c0);
      var node := new PyNode.VarRef(ids, ref);
      return Success(Some(node));
    } else if |p.kids| == 2 {
      r := ConvertBinary(ids, p);
    } else if |p.kids| == 1 {
      return Failure(NoSuchOperator(p.name));
    } else if p.ptype.Some? && p.ptype.value != "" {
      r := ConvertTerminalValue(ids, p);
    } else if p.name.None? {
      return Failure(NotANode);
    } else {
      return Failure(ConversionError("Unknown expression type: " + p.name.value));
    }
  }

  /** Builds a call: every argument in order, then the call node. */
  method ConvertFnCall(ids: IdCounter, p: PNode) returns (r: Result<Option<PyNode>, Fault>)
    modifies ids
    ensures Matches(r, ConvertedFnCall(p))
    ensures r.Success? ==> ids.last == old(ids.last) + OptSize(ConvertedFnCall(p).value)
    ensures r.Success? && r.value.Some? ==> fresh(r.value.value) && Rooted(r.value.value, ids.last)
    decreases p, 1
  {
    var c0 :- Child(p, 0);
    var ref :- CastIdent(c0);
    var a :- Child(p, 1);
    if a.None? {
      return Failure(NotANode);
    }
    var nodes :- ConvertArgs(ids, a.value);
    ArgsOutcome(a.value, nodes, ConvertedArgs(a.value, |a.value.kids|).value);
    if !(forall j | 0 <= j < |nodes| :: nodes[j].Some?) {
      return Failure(NotANode);
    }
    var call := BuildCall(ids, ref, nodes, CallArgs(a.value).value);
    return Success(Some(call));
  }

  /** The call node over arguments already built, all present. */
  method BuildCall(ids: IdCounter, ref: Option<string>, nodes: seq<Option<PyNode>>, ghost shapes: seq<Expr>)
    returns (call: PyNode)
    requires forall j :: 0 <= j < |nodes| ==> nodes[j].Some? && nodes[j].value.id <= ids.last
    requires ShapesAre(Values(nodes), shapes)
    modifies ids, set j | 0 <= j < |nodes| && nodes[j].Some? :: nodes[j].value`parent
    ensures fresh(call) && call.IsExpr() && ShapeOf(call) == FnCallE(ref, shapes)
    ensures Rooted(call, ids.last) && ids.last == old(ids.last) + 1
    ensures forall j :: 0 <= j < |nodes| ==> nodes[j].value.parent == call
  {
    var args := Values(nodes);
    assert forall c :: c in args ==> c.IsExpr() && c.id <= ids.last && exists j :: 0 <= j < |nodes| && nodes[j] == Some(c) by {
      forall c | c in args ensures c.IsExpr() && c.id <= ids.last && exists j :: 0 <= j < |nodes| && nodes[j] == Some(c) {
        var j :| 0 <= j < |args| && args[j] == c;
      }
    }
    call := new PyNode.FnCall(ids, ref, args);
    ShapesOfValues(call.operands, call.height, shapes);
  }

  /** Builds the arguments of a call, each in turn. */
  method ConvertArgs(ids: IdCounter, owner: PNode) returns (r: Result<seq<Option<PyNode>>, Fault>)
    modifies ids
    ensures r.Failure? <==> ConvertedArgs(owner, |owner.kids|).Failure?
    ensures r.Failure? ==> r.error == ConvertedArgs(owner, |owner.kids|).error
    ensures r.Success? ==>
              var exprs := ConvertedArgs(owner, |owner.kids|).value;
              |r.value| == |exprs|
              && (forall j :: 0 <= j < |exprs| ==> Built(r.value[j], exprs[j]))
              && ids.last == old(ids.last) + OptsSize(exprs)
    ensures r.Success? ==> forall j :: 0 <= j < |r.value| && r.value[j].Some? ==>
              fresh(r.value[j].value) && r.value[j].value.id <= ids.last
    decreases owner, 2
  {
    var nodes: seq<Option<PyNode>> := [];
    ghost var exprs: seq<Option<Expr>> := [];
    for i := 0 to |owner.kids|
      invariant ConvertedArgs(owner, i) == Success(exprs)
      invariant |nodes| == |exprs| == i
      invariant forall j :: 0 <= j < i ==> Built(nodes[j], exprs[j])
      invariant forall j :: 0 <= j < i && nodes[j].Some? ==> fresh(nodes[j].value) && nodes[j].value.id <= ids.last
      invariant ids.last == old(ids.last) + OptsSize(exprs)
    {
      var x := ConvertExpr(ids, owner.kids[i]);
      ArgsStep(owner, i, exprs);
      if x.Failure? {
        return Failure(x.error);
      }
      nodes := nodes + [x.value];
      exprs := exprs + [ConvertedExpr(owner.kids[i]).value];
    }
    return Success(nodes);
  }

  /** Builds a binary operation: the left operand, the right one, then the
      operation node. */
  method ConvertBinary(ids: IdCounter, p: PNode) returns (r: Result<Option<PyNode>, Fault>)
    requires |p.kids| == 2
    modifies ids
    ensures Matches(r, ConvertedBinary(p))
    ensures r.Success? ==> ids.last == old(ids.last) + OptSize(ConvertedBinary(p).value)
    ensures r.Success? && r.value.Some? ==> fresh(r.value.value) && Rooted(r.value.value, ids.last)
    decreases p, 1
  {
    if p.name.None? || p.name.value !in BinopNames {
      return Failure(NoSuchOperator(p.name));
    }
    var l := ConvertExpr(ids, p.kids[0]);
    if l.Failure? {
      return Failure(l.error);
    }
    var rr := ConvertExpr(ids, p.kids[1]);
    if rr.Failure? {
      return Failure(rr.error);
    }
    if l.value.None? || rr.value.None? {
      return Failure(NotANode);
    }
    var node := new PyNode.BinaryOp(ids, p.name.value, l.value.value, rr.value.value);
    return Success(Some(node));
  }

  /** A component item: only an assignment is allowed, and both its sides
      must convert to nodes. */
  function ConvertedItem(n: Option<PNode>): (r: Result<Expr, Fault>)
    ensures r.Success? ==> r.value.BinaryE? && r.value.op == "Gets"
    ensures n.Some? && n.value.name != Some("Gets") ==> r.Failure?
  {
    if n.None? then Failure(NotANode)
    else if n.value.name == Some("Gets") then
      var c0 :- Child(n.value, 0);
      var l :- ConvertedExpr(c0);
      var c1 :- Child(n.value, 1);
      var r :- ConvertedExpr(c1);
      if l.None? || r.None? then Failure(NotANode) else Success(BinaryE("Gets", l.value, r.value))
    else if n.value.name.None? then Failure(NotANode)
    else Failure(ConversionError("Parse conversion error. Expected Gets, got: " + n.value.name.value))
  }

  /** The first `k` items of a component's list, in order. */
  function ConvertedItems(owner: PNode, k: nat): (r: Result<seq<Expr>, Fault>)
    requires k <= |owner.kids|
    ensures r.Success? ==> |r.value| == k
  {
    if k == 0 then Success([])
    else
      var prev :- ConvertedItems(owner, k - 1);
      var x :- ConvertedItem(owner.kids[k - 1]);
      Success(prev + [x])
  }

  /** A top-level declaration as converted: its kind, its name and its items. */
  datatype Global = Global(kind: string, name: Option<string>, items: seq<Expr>)

  /** A component or a pipeline: the name is child 0, the items the children
      of child 1; the declaration is made before its items are converted. */
  function ConvertedGlobal(n: Option<PNode>): (r: Result<Global, Fault>)
    ensures r.Success? ==> r.value.kind in {"Component", "Pipeline"}
    ensures r.Success? ==> n.Some? && (r.value.kind == "Component" <==> n.value.name == Some("component"))
  {
    if n.None? then Failure(NotANode)
    else
      var p := n.value;
      if p.name != Some("component") && p.name != Some("pipeline") then
        if p.name.None? then Failure(NotANode)
        else Failure(ConversionError("Parse conversion error. Expected component or pipeline, got: " + p.name.value))
      else
        var kind := if p.name == Some("component") then "Component" else "Pipeline";
        var c0 :- Child(p, 0);
        var name :- CastIdent(c0);
        var list :- Child(p, 1);
        if list.None? then Failure(NotANode)
        else
          var items :- ConvertedItems(list.value, |list.value.kids|);
          Success(Global(kind, name, items))
  }

  /** The first `k` declarations of a unit, in order. */
  function ConvertedGlobalPrefix(unit: PNode, k: nat): (r: Result<seq<Global>, Fault>)
    requires k <= |unit.kids|
    ensures r.Success? ==> |r.value| == k
  {
    if k == 0 then Success([])
    else
      var prev :- ConvertedGlobalPrefix(unit, k - 1);
      var g :- ConvertedGlobal(unit.kids[k - 1]);
      Success(prev + [g])
  }

  /** The declarations of a whole unit; an absent unit is an error. */
  function ConvertedGlobals(n: Option<PNode>): (r: Result<seq<Global>, Fault>)
    ensures r.Success? ==> n.Some? && |r.value| == |n.value.kids|
  {
    if n.None? then Failure(NotANode) else ConvertedGlobalPrefix(n.value, |n.value.kids|)
  }

  /** A converted item list holds, in order, the conversion of each child. */
  lemma {:induction false} ItemsInOrder(owner: PNode, k: nat)
    requires k <= |owner.kids| && ConvertedItems(owner, k).Success?
    ensures forall j :: 0 <= j < k ==> ConvertedItem(owner.kids[j]) == Success(ConvertedItems(owner, k).value[j])
  {
    if k > 0 {
      ItemsInOrder(owner, k - 1);
    }
  }

  /** A converted unit holds, in order, the conversion of each declaration. */
  lemma {:induction false} GlobalsInOrder(unit: PNode, k: nat)
    requires k <= |unit.kids| && ConvertedGlobalPrefix(unit, k).Success?
    ensures forall j :: 0 <= j < k ==> ConvertedGlobal(unit.kids[j]) == Success(ConvertedGlobalPrefix(unit, k).value[j])
  {
    if k > 0 {
      GlobalsInOrder(unit, k - 1);
    }
  }

  lemma {:induction false} ItemsStep(owner: PNode, i: nat, items: seq<Expr>)
    requires i < |owner.kids| && ConvertedItems(owner, i) == Success(items)
    ensures ConvertedItem(owner.kids[i]).Failure? ==>
              ConvertedItems(owner, |owner.kids|) == Failure(ConvertedItem(owner.kids[i]).error)
    ensures ConvertedItem(owner.kids[i]).Success? ==>
              ConvertedItems(owner, i + 1) == Success(items + [ConvertedItem(owner.kids[i]).value])
  {
    if ConvertedItem(owner.kids[i]).Failure? {
      ItemsFailureStays(owner, i + 1, |owner.kids|);
    }
  }

  lemma {:induction false} ItemsFailureStays(owner: PNode, k: nat, m: nat)
    requires k <= m <= |owner.kids| && ConvertedItems(owner, k).Failure?
    ensures ConvertedItems(owner, m) == ConvertedItems(owner, k)
    decreases m - k
  {
    if k < m {
      ItemsFailureStays(owner, k, m - 1);
    }
  }

  lemma {:induction false} GlobalsStep(unit: PNode, i: nat, globals: seq<Global>)
    requires i < |unit.kids| && ConvertedGlobalPrefix(unit, i) == Success(globals)
    ensures ConvertedGlobal(unit.kids[i]).Failure? ==>
              ConvertedGlobalPrefix(unit, |unit.kids|) == Failure(ConvertedGlobal(unit.kids[i]).error)
    ensures ConvertedGlobal(unit.kids[i]).Success? ==>
              ConvertedGlobalPrefix(unit, i + 1) == Success(globals + [ConvertedGlobal(unit.kids[i]).value])
  {
    if ConvertedGlobal(unit.kids[i]).Failure? {
      GlobalsFailureStays(unit, i + 1, |unit.kids|);
    }
  }

  lemma {:induction false} GlobalsFailureStays(unit: PNode, k: nat, m: nat)
    requires k <= m <= |unit.kids| && ConvertedGlobalPrefix(unit, k).Failure?
    ensures ConvertedGlobalPrefix(unit, m) == ConvertedGlobalPrefix(unit, k)
    decreases m - k
  {
    if k < m {
      GlobalsFailureStays(unit, k, m - 1);
    }
  }

  /** The number of nodes a converted declaration is made of. */
  function GlobalSize(g: Global): nat {
    1 + ArgsSize(g.items)
  }

  function GlobalsSize(gs: seq<Global>): nat {
    if gs == [] then 0 else GlobalsSize(gs[..|gs| - 1]) + GlobalSize(gs[|gs| - 1])
  }

  /** `g` is the declaration node built for `spec`: its kind and name, its
      items in order with their shapes, each pointing back at it. */
  ghost predicate GlobalIs(g: PyNode, spec: Global)
    reads g
  {
    g.kind == spec.kind && g.name == spec.name && ShapesAre(g.members, spec.items)
  }

  /** Each member of `g` points back at it. */
  ghost predicate MembersWired(g: PyNode)
    reads g, g.members
  {
    forall k :: 0 <= k < |g.members| ==> g.members[k].parent == g
  }

  /** `m` is a declaration of the unit `tu` built as `spec` says: it points
      back at `tu`, came after it, and its own items point back at it. */
  ghost predicate Attached(tu: PyNode, m: PyNode, spec: Global)
    reads m, m.members
  {
    m.parent == tu && m != tu && tu !in m.members && tu.id < m.id && GlobalIs(m, spec) && MembersWired(m)
  }

  /** Builds a component item. */
  method ConvertComponentItem(ids: IdCounter, n: Option<PNode>) returns (r: Result<PyNode, Fault>)
    modifies ids
    ensures r.Failure? <==> ConvertedItem(n).Failure?
    ensures r.Failure? ==> r.error == ConvertedItem(n).error
    ensures r.Success? ==>
              fresh(r.value) && Rooted(r.value, ids.last) && r.value.IsExpr()
              && ShapeOf(r.value) == ConvertedItem(n).value
              && ids.last == old(ids.last) + ExprSize(ConvertedItem(n).value)
  {
    if n.None? {
      return Failure(NotANode);
    }
    if n.value.name != Some("Gets") {
      if n.value.name.None? {
        return Failure(NotANode);
      }
      return Failure(ConversionError("Parse conversion error. Expected Gets, got: " + n.value.name.value));
    }
    var c0 :- Child(n.value, 0);
    var l :- ConvertExpr(ids, c0);
    var c1 :- Child(n.value, 1);
    var rr :- ConvertExpr(ids, c1);
    if l.None? || rr.None? {
      return Failure(NotANode);
    }
    var node := new PyNode.BinaryOp(ids, "Gets", l.value, rr.value);
    return Success(node);
  }

  /** Builds a component or pipeline: the declaration node first, then each
      item in turn, pushed onto it. */
  method ConvertGlobal(ids: IdCounter, n: Option<PNode>) returns (r: Result<PyNode, Fault>)
    modifies ids
    ensures r.Failure? <==> ConvertedGlobal(n).Failure?
    ensures r.Failure? ==> r.error == ConvertedGlobal(n).error
    ensures r.Success? ==>
              fresh(r.value) && r.value.parent == null && GlobalIs(r.value, ConvertedGlobal(n).value)
              && MembersWired(r.value) && (forall m :: m in r.value.members ==> fresh(m) && r.value.id < m.id)
              && ids.last == old(ids.last) + GlobalSize(ConvertedGlobal(n).value)
              && r.value.id == old(ids.last) + 1
  {
    if n.None? {
      return Failure(NotANode);
    }
    var p := n.value;
    if p.name != Some("component") && p.name != Some("pipeline") {
      if p.name.None? {
        return Failure(NotANode);
      }
      return Failure(ConversionError("Parse conversion error. Expected component or pipeline, got: " + p.name.value));
    }
    var c0 :- Child(p, 0);
    var name :- CastIdent(c0);
    var g: PyNode;
    if p.name == Some("component") {
      g := new PyNode.Component(ids, name);
    } else {
      g := new PyNode.Pipeline(ids, name);
    }
    var list :- Child(p, 1);
    if list.None? {
      return Failure(NotANode);
    }
    var fault := PushItems(ids, g, list.value);
    if fault.Some? {
      return Failure(fault.value);
    }
    return Success(g);
  }

  /** Converts each item of `owner` in turn and pushes it onto `g`; the first
      failure stops the conversion. */
  method PushItems(ids: IdCounter, g: PyNode, owner: PNode) returns (fault: Option<Fault>)
    requires g.kind == "Component" || g.kind == "Pipeline"
    requires g.members == [] && g.id <= ids.last
    modifies ids, g`members
    ensures fault.Some? <==> ConvertedItems(owner, |owner.kids|).Failure?
    ensures fault.Some? ==> fault.value == ConvertedItems(owner, |owner.kids|).error
    ensures fault.None? ==>
              var items := ConvertedItems(owner, |owner.kids|).value;
              ShapesAre(g.members, items)
              && (forall m :: m in g.members ==> m.parent == g && fresh(m) && g.id < m.id)
              && ids.last == old(ids.last) + ArgsSize(items)
  {
    ghost var items: seq<Expr> := [];
    for i := 0 to |owner.kids|
      invariant ConvertedItems(owner, i) == Success(items)
      invariant ShapesAre(g.members, items)
      invariant forall m :: m in g.members ==> m.parent == g && fresh(m) && g.id < m.id
      invariant ids.last == old(ids.last) + ArgsSize(items)
    {
      var f, spec := AddItem(ids, g, owner.kids[i], items);
      ItemsStep(owner, i, items);
      if f.Some? {
        return f;
      }
      ArgsSizeSnoc(items, spec);
      items := items + [spec];
    }
    return None;
  }

  /** Converts one item and pushes it onto `g`, after the items `done`
      already there. */
  method AddItem(ids: IdCounter, g: PyNode, n: Option<PNode>, ghost done: seq<Expr>)
      returns (fault: Option<Fault>, ghost spec: Expr)
    requires g.kind == "Component" || g.kind == "Pipeline"
    requires g.id <= ids.last && ShapesAre(g.members, done)
    requires forall m :: m in g.members ==> m.parent == g && g.id < m.id
    modifies ids, g`members
    ensures fault.Some? <==> ConvertedItem(n).Failure?
    ensures fault.Some? ==> fault.value == ConvertedItem(n).error
    ensures fault.None? ==>
              ConvertedItem(n) == Success(spec) && ShapesAre(g.members, done + [spec])
              && (forall m :: m in g.members ==> m.parent == g && g.id < m.id && (m in old(g.members) || fresh(m)))
              && ids.last == old(ids.last) + ExprSize(spec)
  {
    var item := ConvertComponentItem(ids, n);
    if item.Failure? {
      return Some(item.error), VarRefE(None);
    }
    spec := ConvertedItem(n).value;
    g.Push(item.value);
    return None, spec;
  }

  /** Builds a whole unit: the unit node first, then each declaration in
      turn, pushed onto it. */
  method ConvertGlobalList(ids: IdCounter, n: Option<PNode>) returns (r: Result<PyNode, Fault>)
    modifies ids
    ensures r.Failure? <==> ConvertedGlobals(n).Failure?
    ensures r.Failure? ==> r.error == ConvertedGlobals(n).error
    ensures r.Success? ==>
              var globals := ConvertedGlobals(n).value;
              fresh(r.value) && r.value.kind == "TU" && r.value.parent == null
              && |r.value.members| == |globals|
              && (forall j :: 0 <= j < |globals| ==> Attached(r.value, r.value.members[j], globals[j]))
              && ids.last == old(ids.last) + 1 + GlobalsSize(globals)
  {
    var tu := new PyNode.TU(ids);
    if n.None? {
      return Failure(NotANode);
    }
    var fault := PushGlobals(ids, tu, n.value);
    if fault.Some? {
      return Failure(fault.value);
    }
    return Success(tu);
  }

  /** Converts one declaration and pushes it onto `tu`, whose members so far
      are the declarations `done`. */
  method AddGlobal(ids: IdCounter, tu: PyNode, n: Option<PNode>, ghost done: seq<Global>)
      returns (fault: Option<Fault>, ghost spec: Global)
    requires tu.kind == "TU" && tu.id <= ids.last
    requires |tu.members| == |done| && forall j :: 0 <= j < |done| ==> Attached(tu, tu.members[j], done[j])
    modifies ids, tu`members
    ensures fault.Some? <==> ConvertedGlobal(n).Failure?
    ensures fault.Some? ==> fault.value == ConvertedGlobal(n).error
    ensures fault.None? ==>
              ConvertedGlobal(n) == Success(spec) && |tu.members| == |done| + 1
              && (forall j :: 0 <= j < |done| + 1 ==> Attached(tu, tu.members[j], (done + [spec])[j]))
              && ids.last == old(ids.last) + GlobalSize(spec)
  {
    var r := ConvertGlobal(ids, n);
    if r.Failure? {
      return Some(r.error), Global("", None, []);
    }
    spec := ConvertedGlobal(n).value;
    tu.Push(r.value);
    return None, spec;
  }

  /** Converts each declaration of `unit` in turn and pushes it onto `tu`;
      the first failure stops the conversion. */
  method PushGlobals(ids: IdCounter, tu: PyNode, unit: PNode) returns (fault: Option<Fault>)
    requires tu.kind == "TU" && tu.members == [] && tu.id <= ids.last
    modifies ids, tu`members
    ensures fault.Some? <==> ConvertedGlobalPrefix(unit, |unit.kids|).Failure?
    ensures fault.Some? ==> fault.value == ConvertedGlobalPrefix(unit, |unit.kids|).error
    ensures fault.None? ==>
              var globals := ConvertedGlobalPrefix(unit, |unit.kids|).value;
              |tu.members| == |globals|
              && (forall j :: 0 <= j < |globals| ==> Attached(tu, tu.members[j], globals[j]))
              && ids.last == old(ids.last) + GlobalsSize(globals)
  {
    ghost var globals: seq<Global> := [];
    for i := 0 to |unit.kids|
      invariant ConvertedGlobalPrefix(unit, i) == Success(globals)
      invariant |tu.members| == |globals|
      invariant forall j :: 0 <= j < |globals| ==> Attached(tu, tu.members[j], globals[j])
      invariant ids.last == old(ids.last) + GlobalsSize(globals)
    {
      var f, spec := AddGlobal(ids, tu, unit.kids[i], globals);
      GlobalsStep(unit, i, globals);
      if f.Some? {
        return f;
      }
      GlobalsSizeSnoc(globals, spec);
      globals := globals + [spec];
    }
    return None;
  }
}
