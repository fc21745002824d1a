/** The token record shared by the lexer and the parser, and the lexer's three
    lookup tables (single-character symbols, the one digraph, keywords). */
module Tokens {

  /** Token codes. The named ones are those the tables and the lexer mention; the
      grammar defines further codes, which stand here as OtherToken(code). Every
      constructor is a distinct code. */
  datatype TokenKind =
    | COMMA | L_CURLY | R_CURLY | R_BRACKET | L_PAREN | R_PAREN | COLON
    | PLUS | MINUS | MULT | DIV | CROSS | DOT | NOT | LAMBDA
    | EQUALS | GOESTO
    | DEF | IF | ELSE
    | FLOAT_LIT | INT_LIT | ID
    | OtherToken(code: int)

  /** The payload union. Which member is meaningful depends on the token kind;
      NoValue is a payload no lexer step has written. A float payload is kept
      abstract: it is the value read from the literal's characters. */
  datatype TokenValue =
    | NoValue
    | IntValue(intValue: int)
    | FloatValue(literal: string)
    | StringIndex(stringIndex: nat)

  datatype Token = Token(tokenType: TokenKind, lineNumber: nat, value: TokenValue)

  datatype SymbolToken = SymbolToken(symbol: char, token: TokenKind)

  datatype DigraphToken = DigraphToken(first: char, firstToken: TokenKind, second: char, pairToken: TokenKind)

  datatype KeywordToken = KeywordToken(keyword: string, token: TokenKind)

  const SymbolTokens: seq<SymbolToken> := [
    SymbolToken(',', COMMA),
    SymbolToken('{', L_CURLY),
    SymbolToken('}', R_CURLY),
    SymbolToken(']', R_BRACKET),
    SymbolToken('(', L_PAREN),
    SymbolToken(')', R_PAREN),
    SymbolToken(':', COLON),
    SymbolToken('+', PLUS),
    SymbolToken('-', MINUS),
    SymbolToken('*', MULT),
    SymbolToken('/', DIV),
    SymbolToken('%', CROSS),
    SymbolToken('`', DOT),
    SymbolToken('~', NOT),
    SymbolToken('\\', LAMBDA)
  ]

  const DigraphTokens: seq<DigraphToken> := [DigraphToken('=', EQUALS, '>', GOESTO)]

  const KeywordTokens: seq<KeywordToken> := [
    KeywordToken("def", DEF),
    KeywordToken("if", IF),
    KeywordToken("else", ELSE)
  ]

  predicate IsSymbolChar(c: char) {
    exists i :: 0 <= i < |SymbolTokens| && SymbolTokens[i].symbol == c
  }

  predicate IsSymbolToken(t: TokenKind) {
    exists i :: 0 <= i < |SymbolTokens| && SymbolTokens[i].token == t
  }

  predicate IsDigraphFirst(t: TokenKind) {
    exists i :: 0 <= i < |DigraphTokens| && DigraphTokens[i].firstToken == t
  }

  predicate IsKeywordToken(t: TokenKind) {
    exists i :: 0 <= i < |KeywordTokens| && KeywordTokens[i].token == t
  }

  /** Entry `i` is the first symbol entry spelled `c`: a forward search for `c` stops there. */
  predicate FirstSymbolMatch(c: char, i: int) {
    0 <= i < |SymbolTokens| && SymbolTokens[i].symbol == c
    && forall j :: 0 <= j < i ==> SymbolTokens[j].symbol != c
  }

  /** Entry `i` is the first symbol entry whose token is `t`. */
  predicate FirstSymbolOfToken(t: TokenKind, i: int) {
    0 <= i < |SymbolTokens| && SymbolTokens[i].token == t
    && forall j :: 0 <= j < i ==> SymbolTokens[j].token != t
  }

  predicate FirstDigraphOfFirst(t: TokenKind, i: int) {
    0 <= i < |DigraphTokens| && DigraphTokens[i].firstToken == t
    && forall d :: d in DigraphTokens[..i] ==> d.firstToken != t
  }

  predicate FirstKeywordOfToken(t: TokenKind, i: int) {
    0 <= i < |KeywordTokens| && KeywordTokens[i].token == t
    && forall j :: 0 <= j < i ==> KeywordTokens[j].token != t
  }

  /** No two entries of the symbol table share a character or a token, so a
      first-match search in either direction finds the only match. */
  lemma SymbolTableInjective()
    ensures forall i, j :: 0 <= i < j < |SymbolTokens| ==>
      SymbolTokens[i].symbol != SymbolTokens[j].symbol && SymbolTokens[i].token != SymbolTokens[j].token
  {
    forall i, j | 0 <= i < j < |SymbolTokens|
      ensures SymbolTokens[i].symbol != SymbolTokens[j].symbol && SymbolTokens[i].token != SymbolTokens[j].token
    {
    }
  }

  /** Searching the table by character and searching it by token meet at the
      same entry: the lexer's symbol lookup and the reverse lookup are inverse. */
  lemma SymbolRoundTrip(i: int)
    requires 0 <= i < |SymbolTokens|
    ensures FirstSymbolMatch(SymbolTokens[i].symbol, i)
    ensures FirstSymbolOfToken(SymbolTokens[i].token, i)
  {
    SymbolTableInjective();
  }

  /** The digraph's second token and the digraph's first character appear in no
      symbol entry and no keyword entry. */
  lemma DigraphOutsideOtherTables()
    ensures !IsSymbolChar('=') && !IsSymbolToken(EQUALS) && !IsSymbolToken(GOESTO)
    ensures !IsKeywordToken(EQUALS) && !IsKeywordToken(GOESTO) && !IsDigraphFirst(GOESTO)
  {
  }
}
