/** The lexer's interning table (a vector of strings plus a map from each
    string to its position) and the reverse token lookup used for messages. */
module StringTables {
  import opened Tokens

  class StringTable {
    var strings: seq<string>
    var previousLocations: map<string, nat>

    /** Every stored string is stored once, and the map gives its position. */
    ghost predicate Valid()
      reads this
    {
      (forall s :: s in previousLocations ==>
         previousLocations[s] < |strings| && strings[previousLocations[s]] == s)
      && (forall i :: 0 <= i < |strings| ==>
            strings[i] in previousLocations && previousLocations[strings[i]] == i)
    }

    constructor ()
      ensures Valid()
      ensures strings == [] && previousLocations == map[]
    {
      strings := [];
      previousLocations := map[];
    }

    /** Index of `s` in the table, appending it first when it is new. */
    method PushString(s: string) returns (idx: nat)
      requires Valid()
      modifies this
      ensures Valid()
      ensures idx < |strings| && strings[idx] == s
      ensures s in old(previousLocations) ==>
        idx == old(previousLocations[s]) && strings == old(strings)
        && previousLocations == old(previousLocations)
      ensures s !in old(previousLocations) ==>
        idx == old(|strings|) && strings == old(strings) + [s]
        && previousLocations == old(previousLocations)[s := idx]
    {
      if s in previousLocations {
        return previousLocations[s];
      }
      idx := |strings|;
      previousLocations := previousLocations[s := idx];
      strings := strings + [s];
    }

    /** The string at `index`; the source indexes the vector unchecked. */
    function GetString(index: nat): (r: string)
      reads this
      requires index < |strings|
      ensures Valid() ==> r in previousLocations && previousLocations[r] == index
    {
      strings[index]
    }
  }

  /** A string is in the map exactly when it is in the vector, once. */
  lemma NoDuplicates(t: StringTable)
    requires t.Valid()
    ensures forall i, j :: 0 <= i < |t.strings| && 0 <= j < |t.strings| && t.strings[i] == t.strings[j] ==> i == j
    ensures forall s :: s in t.previousLocations <==> s in t.strings
  {
    forall s | s in t.strings ensures s in t.previousLocations {
      var i :| 0 <= i < |t.strings| && t.strings[i] == s;
    }
  }

  /** Getting what was pushed gives it back, and pushing it again returns the
      same index and leaves the table as it was. */
  method PushTwice(t: StringTable, s: string) returns (first: nat, second: nat)
    requires t.Valid()
    modifies t
    ensures t.Valid()
    ensures first == second && first < |t.strings| && t.GetString(first) == s
    ensures s in old(t.strings) ==> t.strings == old(t.strings)
    ensures s !in old(t.strings) ==> t.strings == old(t.strings) + [s]
  {
    NoDuplicates(t);
    first := t.PushString(s);
    ghost var afterFirst := t.strings;
    second := t.PushString(s);
    assert t.strings == afterFirst;
  }

  /** Tokens for which the reverse lookup reaches a `return`: every symbol
      token, the first token of every digraph, and every keyword token. */
  predicate HasSpelling(token: TokenKind) {
    IsSymbolToken(token) || IsDigraphFirst(token) || IsKeywordToken(token)
  }

  /** Spelling of a token, searching the symbols, then the digraphs' first
      halves, then the keywords, each in table order. */
  method LookupToken(token: TokenKind) returns (retval: string)
    requires HasSpelling(token)
    ensures IsSymbolToken(token) ==>
      exists i :: FirstSymbolOfToken(token, i) && retval == [SymbolTokens[i].symbol]
    ensures !IsSymbolToken(token) && IsDigraphFirst(token) ==>
      exists i :: FirstDigraphOfFirst(token, i) && retval == [DigraphTokens[i].first]
    ensures !IsSymbolToken(token) && !IsDigraphFirst(token) ==>
      exists i :: FirstKeywordOfToken(token, i) && retval == KeywordTokens[i].keyword
  {
    var found;
    found, retval := SearchSymbols(token);
    if found {
      return;
    }
    found, retval := SearchDigraphs(token);
    if found {
      return;
    }
    retval := SearchKeywords(token);
  }

  /** The first loop of the lookup: the symbol table. */
  method SearchSymbols(token: TokenKind) returns (found: bool, retval: string)
    ensures found <==> IsSymbolToken(token)
    ensures found ==> exists i :: FirstSymbolOfToken(token, i) && retval == [SymbolTokens[i].symbol]
  {
    retval := "";
    for i := 0 to |SymbolTokens|
      invariant forall j :: 0 <= j < i ==> SymbolTokens[j].token != token
    {
      var e := SymbolTokens[i];
      if token == e.token {
        assert FirstSymbolOfToken(token, i);
        retval := retval + [e.symbol];
        return true, retval;
      }
    }
    return false, retval;
  }

  /** The second loop: the digraphs, by their first token. A digraph's pair
      token has no spelling; the source pushes two characters for it and goes
      on without returning, which the precondition excludes. */
  method SearchDigraphs(token: TokenKind) returns (found: bool, retval: string)
    requires HasSpelling(token) && !IsSymbolToken(token)
    ensures found <==> IsDigraphFirst(token)
    ensures found ==> exists i :: FirstDigraphOfFirst(token, i) && retval == [DigraphTokens[i].first]
  {
    DigraphOutsideOtherTables();
    retval := "";
    for i := 0 to |DigraphTokens|
      invariant forall d :: d in DigraphTokens[..i] ==> d.firstToken != token
    {
      var d := DigraphTokens[i];
      if token == d.firstToken {
        retval := retval + [d.first];
        return true, retval;
      } else if token == d.pairToken {
        assert false;
      }
    }
    return false, retval;
  }

  /** The last loop: the keywords. */
  method SearchKeywords(token: TokenKind) returns (retval: string)
    requires IsKeywordToken(token)
    ensures exists i :: FirstKeywordOfToken(token, i) && retval == KeywordTokens[i].keyword
  {
    for i := 0 to |KeywordTokens|
      invariant forall j :: 0 <= j < i ==> KeywordTokens[j].token != token
    {
      if token == KeywordTokens[i].token {
        return KeywordTokens[i].keyword;
      }
    }
    assert false;
  }
}
