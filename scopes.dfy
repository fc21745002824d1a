/** Lexical scopes: each scope has its own bindings and an optional enclosing
    scope, and a name is looked up from the innermost scope outwards. The same
    scope serves both Python front ends; the later one's scope has no name
    and no owner. */
module Scopes {
  import opened Wrappers

  class LexicalScope<O, V> {
    const parent: LexicalScope?<O, V>
    const name: string
    const owner: Option<O>
    var locals: map<string, V>
    /** The enclosing scopes, innermost first. */
    ghost const ancestors: seq<LexicalScope<O, V>>

    /** The chain of enclosing scopes is the parent followed by its own chain;
        it is finite because a scope's parent exists before the scope does. */
    ghost predicate Valid()
      decreases |ancestors|
    {
      if parent == null then ancestors == []
      else |ancestors| >= 1 && ancestors[0] == parent && ancestors[1..] == parent.ancestors && parent.Valid()
    }

    /** A scope of the first front end, with a name and an owner. */
    constructor (name: string, owner: O, parent: LexicalScope?<O, V>)
      requires parent != null ==> parent.Valid()
      ensures Valid() && this.parent == parent && this.name == name && this.owner == Some(owner)
      ensures locals == map[]
    {
      this.parent := parent;
      this.name := name;
      this.owner := Some(owner);
      locals := map[];
      ancestors := if parent == null then [] else [parent] + parent.ancestors;
    }

    /** A scope of the later front end: bindings and a parent only. */
    constructor Nested(parent: LexicalScope?<O, V>)
      requires parent != null ==> parent.Valid()
      ensures Valid() && this.parent == parent && this.name == "" && this.owner == None
      ensures locals == map[]
    {
      this.parent := parent;
      name := "";
      owner := None;
      locals := map[];
      ancestors := if parent == null then [] else [parent] + parent.ancestors;
    }

    /** This scope, then the enclosing ones. */
    ghost function Chain(): (c: seq<LexicalScope<O, V>>)
      ensures |c| == |ancestors| + 1 && c[0] == this && c[1..] == ancestors
    {
      [this] + ancestors
    }

    /** The binding of `k` in the innermost scope of the chain that binds it;
        none when no scope on the chain does. */
    function Lookup(k: string): (r: Option<V>)
      requires Valid()
      reads this, ancestors
      ensures k in locals ==> r == Some(locals[k])
      ensures r.None? <==> k !in locals && forall a :: a in ancestors ==> k !in a.locals
      decreases |ancestors|
    {
      if k in locals then Some(locals[k])
      else if parent != null then parent.Lookup(k)
      else None
    }

    /** Binds `k` in this scope only. */
    method Set(k: string, v: V)
      requires Valid()
      modifies this`locals
      ensures locals == old(locals)[k := v]
      ensures Lookup(k) == Some(v)
      ensures forall k' :: k' != k ==> Lookup(k') == old(Lookup(k'))
      ensures forall a :: a in ancestors ==> a.locals == old(a.locals)
    {
      NotOwnAncestor(this);
      locals := locals[k := v];
    }
  }

  /** The binding of `k` in the first of `scopes` that binds it. */
  ghost function FirstBinding<O, V>(scopes: seq<LexicalScope<O, V>>, k: string): Option<V>
    reads scopes
  {
    if scopes == [] then None
    else if k in scopes[0].locals then Some(scopes[0].locals[k])
    else FirstBinding(scopes[1..], k)
  }

  /** Lookup is the first binding along the chain, innermost first. */
  lemma {:induction false} LookupIsFirstBinding<O, V>(s: LexicalScope<O, V>, k: string)
    requires s.Valid()
    ensures s.Lookup(k) == FirstBinding(s.Chain(), k)
    decreases |s.ancestors|
  {
    if k !in s.locals && s.parent != null {
      LookupIsFirstBinding(s.parent, k);
      assert s.Chain()[1..] == s.parent.Chain();
    }
  }

  /** Every scope on the chain is itself well formed, and its own chain is
      the rest of the chain. */
  lemma {:induction false} AncestorsValid<O, V>(s: LexicalScope<O, V>, i: nat)
    requires s.Valid() && i < |s.ancestors|
    ensures s.ancestors[i].Valid() && s.ancestors[i].ancestors == s.ancestors[i + 1..]
    decreases i
  {
    if i > 0 {
      AncestorsValid(s.parent, i - 1);
      assert s.ancestors[i] == s.parent.ancestors[i - 1];
      assert s.ancestors[i + 1..] == s.parent.ancestors[i..];
    }
  }

  /** No scope encloses itself. */
  lemma NotOwnAncestor<O, V>(s: LexicalScope<O, V>)
    requires s.Valid()
    ensures s !in s.ancestors
  {
    forall i | 0 <= i < |s.ancestors| ensures s.ancestors[i] != s {
      AncestorsValid(s, i);
    }
  }
}
