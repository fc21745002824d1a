/** The text renderings of type names, declarations, includes and parameter
    lists. */
module Render {
  import opened Wrappers
  import opened Text
  import opened Ast

  /** A type name, followed by '@' and the dimension when the dimension is above 1. */
  function TypeIdentToString(t: TypeIdent): (r: string)
    ensures |r| >= |t.value| && r[..|t.value|] == t.value
  {
    if t.dimension > 1 then t.value + "@" + IntToString(t.dimension) else t.value
  }

  /** Reads a rendered type name back: the text before '@' and the number after
      it, or dimension 1 when there is no '@'. */
  function ReadTypeIdent(s: string): (r: Option<(string, int)>)
    ensures '@' !in s ==> r == Some((s, 1))
  {
    SplitOnNoneIf(s, '@');
    var parts := SplitOn(s, '@');
    if |parts| == 1 then Some((parts[0], 1))
    else if |parts| == 2 then
      match ParseInt(parts[1])
      case Some(d) => Some((parts[0], d))
      case None => None
    else None
  }

  lemma SplitOnNoneIf(s: string, c: char)
    ensures c !in s ==> SplitOn(s, c) == [s]
  {
    if c !in s {
      SplitOnNone(s, c);
    }
  }

  lemma NatToStringPlain(n: nat)
    ensures forall c :: c in NatToString(n) ==> IsDigit(c)
  {
    var s := NatToString(n);
    forall c | c in s ensures IsDigit(c) {
      var i :| 0 <= i < |s| && s[i] == c;
    }
  }

  /** A rendered integer holds only digits and a leading '-'. */
  lemma IntToStringPlain(i: int)
    ensures forall c :: c in IntToString(i) ==> IsDigit(c) || c == '-'
  {
    if i < 0 {
      NatToStringPlain(-i);
    } else {
      NatToStringPlain(i);
    }
  }

  /** The rendering can be read back when the name holds no '@': the dimension
      comes back exactly when it is at least 1, and a smaller one reads as 1. */
  lemma TypeIdentRoundTrip(t: TypeIdent)
    requires '@' !in t.value
    ensures ReadTypeIdent(TypeIdentToString(t)) == Some((t.value, if t.dimension >= 1 then t.dimension else 1))
    ensures '@' in TypeIdentToString(t) <==> t.dimension > 1
  {
    if t.dimension > 1 {
      var digits := IntToString(t.dimension);
      IntToStringPlain(t.dimension);
      SplitOnFirst(t.value, digits, '@');
      SplitOnNone(digits, '@');
      assert SplitOn(TypeIdentToString(t), '@') == [t.value, digits];
      IntToStringRoundTrip(t.dimension);
    }
  }

  function NameText(o: Option<Ident>): string {
    match o
    case None => ""
    case Some(i) => i.value
  }

  function TypeText(v: VarDecl): string {
    if v.varType.Some? then " " + TypeIdentToString(v.varType.value) else ""
  }

  function IndexText(v: VarDecl): string {
    if v.varIndex.Some? then " " + IntToString(v.varIndex.value.value) else ""
  }

  /** The name, ':' when a type or an index is present, the type, the index. */
  function DeclText(v: VarDecl): string {
    NameText(v.varName)
    + (if v.varType.Some? || v.varIndex.Some? then ":" else "")
    + TypeText(v)
    + IndexText(v)
  }

  /** The declaration text, inside the scope's name and '[' ... ']' when there
      is a scope. */
  function VarDeclToString(v: VarDecl): string {
    if v.scope.Some? then v.scope.value.value + "[" + DeclText(v) + "]" else DeclText(v)
  }

  function Unscoped(v: VarDecl): (r: VarDecl)
    ensures r.scope.None? && r.varName == v.varName && r.varType == v.varType && r.varIndex == v.varIndex
  {
    VarDecl(v.nodeID, v.varName, v.varType, v.varIndex, None)
  }

  /** A scope wraps the rest of the rendering, which does not depend on it. */
  lemma VarDeclScopeWrap(v: VarDecl)
    ensures v.scope.Some? ==>
      VarDeclToString(v) == v.scope.value.value + "[" + VarDeclToString(Unscoped(v)) + "]"
    ensures v.scope.None? ==> VarDeclToString(v) == VarDeclToString(Unscoped(v))
  {
    assert DeclText(Unscoped(v)) == DeclText(v);
  }

  /** No text of the declaration's parts holds `c`. */
  predicate PartsAvoid(v: VarDecl, c: char) {
    c !in NameText(v.varName) && c !in NameText(v.scope)
    && (v.varType.Some? ==> c !in v.varType.value.value)
  }

  /** Type name and dimension hold no ':' when the name holds none. */
  lemma TypeIdentAvoids(t: TypeIdent, c: char)
    requires c !in t.value && c != '@' && c != '-' && !IsDigit(c)
    ensures c !in TypeIdentToString(t)
  {
    IntToStringPlain(t.dimension);
  }

  /** The rendering holds a ':' exactly when a type or an index is present. */
  lemma VarDeclColon(v: VarDecl)
    requires PartsAvoid(v, ':')
    ensures ':' in VarDeclToString(v) <==> v.varType.Some? || v.varIndex.Some?
  {
    if v.varType.Some? {
      TypeIdentAvoids(v.varType.value, ':');
    }
    if v.varIndex.Some? {
      IntToStringPlain(v.varIndex.value.value);
    }
    assert ':' in DeclText(v) <==> ':' in (if v.varType.Some? || v.varIndex.Some? then ":" else "");
  }

  /** The rendering holds a '[' exactly when a scope is present. */
  lemma VarDeclBracket(v: VarDecl)
    requires PartsAvoid(v, '[')
    ensures '[' in VarDeclToString(v) <==> v.scope.Some?
  {
    if v.varType.Some? {
      TypeIdentAvoids(v.varType.value, '[');
    }
    if v.varIndex.Some? {
      IntToStringPlain(v.varIndex.value.value);
    }
    assert '[' !in DeclText(v);
  }

  /** Type and index texts hold no `c` when the type name holds none. */
  lemma TailAvoids(v: VarDecl, c: char)
    requires PartsAvoid(v, c) && c != ' ' && c != '@' && c != '-' && !IsDigit(c)
    ensures c !in TypeText(v) + IndexText(v)
  {
    if v.varType.Some? {
      TypeIdentAvoids(v.varType.value, c);
    }
    if v.varIndex.Some? {
      IntToStringPlain(v.varIndex.value.value);
    }
  }

  /** With no scope and no ':' in the parts, the name comes before the only
      ':' and the type text before the index text after it. */
  lemma VarDeclReadBack(v: VarDecl)
    requires v.scope.None? && PartsAvoid(v, ':')
    requires v.varType.Some? || v.varIndex.Some?
    ensures SplitOn(VarDeclToString(v), ':') == [NameText(v.varName), TypeText(v) + IndexText(v)]
  {
    var name := NameText(v.varName);
    var tail := TypeText(v) + IndexText(v);
    TailAvoids(v, ':');
    assert VarDeclToString(v) == name + [':'] + tail;
    SplitOnFirst(name, tail, ':');
    SplitOnNone(tail, ':');
  }

  /** The earlier form's declaration rendering, as its output stream grows:
      the scope and '[', the name, ':' when a type or an index is present, a
      space and the type, a space and the index, and the closing ']'. */
  function LegacyVarDeclToString(v: VarDecl): string {
    var scoped := if v.scope.Some? then v.scope.value.value + "[" else "";
    var named := if v.varName.Some? then scoped + v.varName.value.value else scoped;
    var marked := if v.varType.Some? || v.varIndex.Some? then named + ":" else named;
    var typed := if v.varType.Some? then marked + " " + TypeIdentToString(v.varType.value) else marked;
    var indexed := if v.varIndex.Some? then typed + " " + IntToString(v.varIndex.value.value) else typed;
    if v.scope.Some? then indexed + "]" else indexed
  }

  lemma Appended(a: string, b: string, c: string)
    ensures a + b + c == a + (b + c)
  {
  }

  /** The earlier and the later form render every declaration alike. */
  lemma LegacyVarDeclSame(v: VarDecl)
    ensures LegacyVarDeclToString(v) == VarDeclToString(v)
  {
    var s := if v.scope.Some? then v.scope.value.value + "[" else "";
    var n, t, i := NameText(v.varName), TypeText(v), IndexText(v);
    var m := if v.varType.Some? || v.varIndex.Some? then ":" else "";
    var named := if v.varName.Some? then s + v.varName.value.value else s;
    assert named == s + n;
    var marked := if v.varType.Some? || v.varIndex.Some? then named + ":" else named;
    assert marked == s + n + m;
    var typed := if v.varType.Some? then marked + " " + TypeIdentToString(v.varType.value) else marked;
    if v.varType.Some? {
      Appended(s + n + m, " ", TypeIdentToString(v.varType.value));
      assert typed == s + n + m + t;
    } else {
      assert typed == s + n + m + t;
    }
    var indexed := if v.varIndex.Some? then typed + " " + IntToString(v.varIndex.value.value) else typed;
    if v.varIndex.Some? {
      Appended(s + n + m + t, " ", IntToString(v.varIndex.value.value));
      assert indexed == s + n + m + t + i;
    } else {
      assert indexed == s + n + m + t + i;
    }
    Appended(s, n, m);
    Appended(s, n + m, t);
    Appended(s, n + m + t, i);
  }

  /** "include " and the included name, then " as " and the alias when there is one. */
  function IncludeDeclToString(n: Node): (r: string)
    requires n.IncludeDecl?
    ensures |r| >= 8 && r[..8] == "include "
  {
    "include " + n.includedPipeline.value + (if n.asName.Some? then " as " + n.asName.value.value else "")
  }

  /** Cutting the rendering at spaces recovers the included name and the alias
      when neither holds a space. */
  lemma IncludeDeclReadBack(n: Node)
    requires n.IncludeDecl? && ' ' !in n.includedPipeline.value && ' ' !in NameText(n.asName)
    ensures SplitOn(IncludeDeclToString(n), ' ') ==
      ["include", n.includedPipeline.value] + (if n.asName.Some? then ["as", n.asName.value.value] else [])
  {
    var name := n.includedPipeline.value;
    var r := IncludeDeclToString(n);
    if n.asName.Some? {
      var alias := n.asName.value.value;
      assert r == "include" + [' '] + (name + [' '] + ("as" + [' '] + alias));
      SplitOnFirst("include", name + [' '] + ("as" + [' '] + alias), ' ');
      SplitOnFirst(name, "as" + [' '] + alias, ' ');
      SplitOnFirst("as", alias, ' ');
      SplitOnNone(alias, ' ');
    } else {
      assert r == "include" + [' '] + name;
      SplitOnFirst("include", name, ' ');
      SplitOnNone(name, ' ');
    }
  }

  /** Each parameter's rendering, in list order. */
  function Rendered(ps: seq<VarDecl>): (r: seq<string>)
    ensures |r| == |ps| && forall i :: 0 <= i < |ps| ==> r[i] == VarDeclToString(ps[i])
  {
    seq(|ps|, i requires 0 <= i < |ps| => VarDeclToString(ps[i]))
  }

  /** What a parameter list formats to: nothing for a null or empty list, else
      the renderings joined by ", ". */
  function ParameterListText(params: Option<seq<VarDecl>>): string {
    if params.None? || params.value == [] then "" else Join(Rendered(params.value), ", ")
  }

  /** Writes every parameter but the last followed by ", ", then the last. */
  method FormatParameterList(params: Option<seq<VarDecl>>) returns (out: string)
    ensures out == ParameterListText(params)
  {
    if params.None? || |params.value| == 0 {
      return "";
    }
    var ps := params.value;
    ghost var parts := Rendered(ps);
    out := "";
    for i := 0 to |ps| - 1
      invariant out == Terminated(parts[..i], ", ")
    {
      assert parts[..i + 1][..i] == parts[..i];
      out := out + VarDeclToString(ps[i]) + ", ";
    }
    out := out + VarDeclToString(ps[|ps| - 1]);
    TerminatedThenLast(parts, ", ");
  }

  function TotalLength(parts: seq<string>): nat
    decreases |parts|
  {
    if parts == [] then 0 else |parts[0]| + TotalLength(parts[1..])
  }

  /** A join of n pieces is as long as the pieces plus n - 1 separators. */
  lemma {:induction false} JoinLength(parts: seq<string>, sep: string)
    requires parts != []
    ensures |Join(parts, sep)| == TotalLength(parts) + |sep| * (|parts| - 1)
    decreases |parts|
  {
    if |parts| > 1 {
      JoinLength(parts[1..], sep);
    }
  }

  /** A join starts with the first piece and ends with the last. */
  lemma JoinEnds(parts: seq<string>, sep: string)
    requires parts != []
    ensures |Join(parts, sep)| >= |parts[0]| && Join(parts, sep)[..|parts[0]|] == parts[0]
    ensures |Join(parts, sep)| >= |parts[|parts| - 1]|
    ensures Join(parts, sep)[|Join(parts, sep)| - |parts[|parts| - 1]|..] == parts[|parts| - 1]
  {
    TerminatedThenLast(parts, sep);
    var front := Terminated(parts[..|parts| - 1], sep);
    assert Join(parts, sep) == front + parts[|parts| - 1];
    if |parts| > 1 {
      assert Join(parts, sep) == parts[0] + (sep + Join(parts[1..], sep));
    }
  }

  /** The formatted list: empty for a null or empty list, the one rendering
      for a single parameter, and otherwise the renderings with n - 1 ", "
      separators, starting with the first and ending with the last. */
  lemma ParameterListShape(params: Option<seq<VarDecl>>)
    ensures (params.None? || params.value == []) ==> ParameterListText(params) == ""
    ensures params.Some? && |params.value| == 1 ==>
      ParameterListText(params) == VarDeclToString(params.value[0])
    ensures params.Some? && |params.value| >= 1 ==>
      var ps := params.value;
      var out := ParameterListText(params);
      |out| == TotalLength(Rendered(ps)) + 2 * (|ps| - 1)
      && |out| >= |VarDeclToString(ps[0])| && out[..|VarDeclToString(ps[0])|] == VarDeclToString(ps[0])
      && |out| >= |VarDeclToString(ps[|ps| - 1])|
      && out[|out| - |VarDeclToString(ps[|ps| - 1])|..] == VarDeclToString(ps[|ps| - 1])
  {
    if params.Some? && |params.value| >= 1 {
      JoinLength(Rendered(params.value), ", ");
      JoinEnds(Rendered(params.value), ", ");
    }
  }
}
