/** The hand-written lexer: a cursor over the input characters with a line
    counter, trying a symbol, then a number, then an identifier. */
module Lexing {
  import opened Wrappers
  import opened Text
  import opened Tokens
  import opened StringTables

  /** How a lexing step ended: a token, no token, or a thrown ParseError. */
  datatype Lexed = Matched | NoMatch | LexError(message: string)

  predicate IsBlank(c: char) { c == '\n' || c == ' ' || c == '\r' || c == '\t' }

  /** The lexer's digit test: strictly between '0' and '9', so neither '0' nor '9' is one. */
  predicate IsLexDigit(c: char) { '0' < c < '9' }

  predicate IsAlpha(c: char) { 'a' <= c <= 'z' || 'A' <= c <= 'Z' }

  predicate IsAlnum(c: char) { IsAlpha(c) || IsDigit(c) }

  predicate IdStart(c: char) { IsAlpha(c) || c == '_' }

  /** A character the number loop takes: a digit, or the first '.'. */
  predicate Admissible(c: char, seenDot: bool) { (c == '.' && !seenDot) || IsLexDigit(c) }

  /** Cursor after the whitespace step from `p`: one blank character is skipped at most. */
  function SkippedTo(s: string, p: nat): nat {
    if p < |s| && IsBlank(s[p]) then p + 1 else p
  }

  /** End of the run of characters the number loop takes from `i` on. */
  function NumberEnd(s: string, i: nat, seenDot: bool): (e: nat)
    requires i <= |s|
    ensures i <= e <= |s|
    decreases |s| - i
  {
    if i < |s| && Admissible(s[i], seenDot) then NumberEnd(s, i + 1, seenDot || s[i] == '.') else i
  }

  /** Where the number loop starts: past a leading '-', if there is one. */
  function LiteralStart(s: string, p: nat): nat
    requires p < |s|
  {
    if s[p] == '-' then p + 1 else p
  }

  function LiteralEnd(s: string, p: nat): (e: nat)
    requires p < |s|
    ensures p <= e <= |s|
  {
    NumberEnd(s, LiteralStart(s, p), false)
  }

  /** The run taken by the number loop holds only digits and '.', at most one
      '.' (none when one was already seen), and stops at the first character the
      loop refuses. */
  lemma {:induction false} NumberRun(s: string, i: nat, seenDot: bool)
    requires i <= |s|
    ensures var e := NumberEnd(s, i, seenDot);
      (forall k :: i <= k < e ==> s[k] == '.' || IsLexDigit(s[k]))
      && (seenDot ==> '.' !in s[i..e])
      && (forall a, b :: i <= a < b < e && s[a] == '.' ==> s[b] != '.')
      && (e == |s| || !Admissible(s[e], seenDot || '.' in s[i..e]))
    decreases |s| - i
  {
    var e := NumberEnd(s, i, seenDot);
    if i < |s| && Admissible(s[i], seenDot) {
      NumberRun(s, i + 1, seenDot || s[i] == '.');
      assert s[i..e] == [s[i]] + s[i + 1..e];
    } else {
      assert s[i..e] == [];
    }
  }

  const Int64Min: int := -0x8000_0000_0000_0000
  const Int64Max: int := 0x7fff_ffff_ffff_ffff

  /** Reading a 64-bit integer from the literal's text: a decimal in range. */
  function ExtractInt64(text: string): (r: Option<int>)
    ensures r.Some? ==> Int64Min <= r.value <= Int64Max && ParseInt(text) == r
  {
    match ParseInt(text)
    case Some(v) => if Int64Min <= v <= Int64Max then Some(v) else None
    case None => None
  }

  /** The smallest magnitude a correctly rounded read into a 32-bit IEEE float
      turns into infinity: halfway between the largest finite float,
      2^128 - 2^104, and 2^128. A stream read of such a value fails. */
  const FloatOverflow: nat := 0xffff_ff80_0000_0000_0000_0000_0000_0000

  /** The literal without its leading '-', if it has one. */
  function Magnitude(text: string): string {
    if text != [] && text[0] == '-' then text[1..] else text
  }

  /** The value `acc` grows to as the digits opening `s` are read, up to the
      first character that is not a digit. */
  function LeadingValue(s: string, acc: nat): nat
    decreases |s|
  {
    if s != [] && IsDigit(s[0]) then LeadingValue(s[1..], acc * 10 + ((s[0] as int) - ('0' as int)))
    else acc
  }

  /** Reading a float from a literal made of an optional '-', digits and one
      '.': it succeeds when there is at least one digit and the magnitude
      stays below the overflow bound. The fraction adds less than one, so
      the digits before the '.' decide the bound. */
  predicate ExtractsFloat(text: string) {
    (exists k :: 0 <= k < |text| && IsDigit(text[k]))
    && LeadingValue(Magnitude(text), 0) < FloatOverflow
  }

  function Pow10(k: nat): (p: nat)
    ensures p >= 1
  {
    if k == 0 then 1 else 10 * Pow10(k - 1)
  }

  /** Reading the digits of `s` into `acc` stays below `acc + 1` shifted by
      the length of `s`. */
  lemma {:induction false} LeadingValueBelow(s: string, acc: nat)
    ensures LeadingValue(s, acc) < (acc + 1) * Pow10(|s|)
    decreases |s|
  {
    if s != [] && IsDigit(s[0]) {
      var d := (s[0] as int) - ('0' as int);
      var p := Pow10(|s| - 1);
      LeadingValueBelow(s[1..], acc * 10 + d);
      MulMono(acc * 10 + d + 1, (acc + 1) * 10, p);
      MulAssoc(acc + 1, 10, p);
    } else {
      MulMono(1, Pow10(|s|), acc + 1);
    }
  }

  lemma MulAssoc(a: nat, b: nat, c: nat)
    ensures a * b * c == a * (b * c)
  {
  }

  lemma MulMono(a: nat, b: nat, c: nat)
    requires a <= b
    ensures a * c <= b * c
  {
  }

  /** Reading `k` opening digits multiplies `acc` by ten `k` times at least. */
  lemma {:induction false} LeadingValueAbove(s: string, acc: nat, k: nat)
    requires k <= |s| && forall i :: 0 <= i < k ==> IsDigit(s[i])
    ensures LeadingValue(s, acc) >= acc * Pow10(k)
    decreases k
  {
    if k > 0 {
      var d := (s[0] as int) - ('0' as int);
      LeadingValueAbove(s[1..], acc * 10 + d, k - 1);
      assert (acc * 10 + d) * Pow10(k - 1) >= acc * (10 * Pow10(k - 1));
    } else {
      LeadingValueGrows(s, acc);
    }
  }

  lemma {:induction false} LeadingValueGrows(s: string, acc: nat)
    ensures LeadingValue(s, acc) >= acc
    decreases |s|
  {
    if s != [] && IsDigit(s[0]) {
      LeadingValueGrows(s[1..], acc * 10 + ((s[0] as int) - ('0' as int)));
    }
  }

  /** A float literal of at most 38 characters that holds a digit always reads:
      its magnitude is below 10^38. */
  lemma ShortFloatReads(text: string)
    requires '.' in text && |text| <= 38 && exists k :: 0 <= k < |text| && IsDigit(text[k])
    ensures ScanNumber(text) == FloatLiteral(text)
  {
    LeadingValueBelow(Magnitude(text), 0);
    var m := |Magnitude(text)|;
    assert Pow10(m) <= Pow10(38) by { Pow10Mono(m, 38); }
    assert Pow10(38) == 100_000_000_000_000_000_000_000_000_000_000_000_000 by { Pow10Value38(); }
  }

  lemma {:induction false} Pow10Mono(a: nat, b: nat)
    requires a <= b
    ensures Pow10(a) <= Pow10(b)
    decreases b
  {
    if a < b {
      Pow10Mono(a, b - 1);
    }
  }

  lemma Pow10Value38()
    ensures Pow10(38) == 100_000_000_000_000_000_000_000_000_000_000_000_000
  {
    assert Pow10(8) == 100_000_000;
    assert Pow10(16) == 10_000_000_000_000_000 by { Pow10Split(8, 8); }
    assert Pow10(32) == 100_000_000_000_000_000_000_000_000_000_000 by { Pow10Split(16, 16); }
    assert Pow10(6) == 1_000_000;
    Pow10Split(32, 6);
  }

  lemma {:induction false} Pow10Split(a: nat, b: nat)
    ensures Pow10(a + b) == Pow10(a) * Pow10(b)
    decreases b
  {
    if b > 0 {
      Pow10Split(a, b - 1);
      assert Pow10(a + b) == 10 * Pow10(a + b - 1);
    }
  }

  /** A float literal whose magnitude opens with 40 digits fails to read, as
      the stream read overflows a 32-bit float: forty '1's then '.' is one. */
  lemma LongFloatFails(text: string)
    requires '.' in text && |Magnitude(text)| >= 40
    requires forall i :: 0 <= i < 40 ==> IsLexDigit(Magnitude(text)[i])
    ensures ScanNumber(text) == BadLiteral("Failed to lex float literal.")
  {
    var m := Magnitude(text);
    var d := (m[0] as int) - ('0' as int);
    var rest := m[1..];
    assert forall i :: 0 <= i < 39 ==> IsDigit(rest[i]) by {
      forall i | 0 <= i < 39 ensures IsDigit(rest[i]) {
        assert rest[i] == m[i + 1];
      }
    }
    LeadingValueAbove(rest, d, 39);
    MulMono(1, d, Pow10(39));
    Pow10Value38();
    assert Pow10(39) == 10 * Pow10(38);
    assert LeadingValue(m, 0) >= FloatOverflow;
  }


  /** What the number step makes of the characters it took. */
  datatype NumberScan = NoNumber | IntLiteral(value: int) | FloatLiteral(text: string) | BadLiteral(message: string)

  function ScanNumber(text: string): NumberScan {
    if text == [] then NoNumber
    else if '.' in text then
      if ExtractsFloat(text) then FloatLiteral(text) else BadLiteral("Failed to lex float literal.")
    else
      match ExtractInt64(text)
      case Some(v) => IntLiteral(v)
      case None => BadLiteral("Failed to lex integer literal.")
  }

  /** The step's outcome and the token it leaves, from the scan. */
  function NumberStep(scan: NumberScan, retval: Token): (Lexed, Token) {
    match scan
    case NoNumber => (NoMatch, retval)
    case IntLiteral(v) => (Matched, retval.(tokenType := INT_LIT, value := IntValue(v)))
    case FloatLiteral(t) => (Matched, retval.(tokenType := FLOAT_LIT, value := FloatValue(t)))
    case BadLiteral(m) => (LexError(m), retval)
  }

  /** A number token is FLOAT_LIT exactly when its text holds a '.', and INT_LIT
      otherwise; a text with no character gives no token. */
  lemma NumberKind(text: string, retval: Token)
    ensures NumberStep(ScanNumber(text), retval).0 == Matched ==>
      (NumberStep(ScanNumber(text), retval).1.tokenType == FLOAT_LIT <==> '.' in text)
    ensures NumberStep(ScanNumber(text), retval).0 == Matched ==>
      (NumberStep(ScanNumber(text), retval).1.tokenType == INT_LIT <==> '.' !in text)
    ensures NumberStep(ScanNumber(text), retval).0 == NoMatch <==> text == []
  {
  }

  function Repeat(c: char, n: nat): (r: string)
    ensures |r| == n && forall k :: 0 <= k < n ==> r[k] == c
  {
    seq(n, _ => c)
  }

  class Lexer {
    /** The characters from the start iterator to the end iterator. */
    const input: string
    var cur: nat
    var line: nat
    var curString: string
    const stringTable: StringTable

    ghost predicate Valid()
      reads this, stringTable
    {
      cur <= |input| && stringTable.Valid()
    }

    constructor (input: string, stringTable: StringTable)
      requires stringTable.Valid()
      ensures Valid()
      ensures this.input == input && this.stringTable == stringTable
      ensures cur == 0 && line == 0 && curString == ""
    {
      this.input := input;
      this.stringTable := stringTable;
      cur := 0;
      line := 0;
      curString := "";
    }

    /** Every case of the switch ends in `return`, so one character is looked at. */
    method SkipWhitespace()
      requires Valid()
      modifies this`cur, this`line
      ensures Valid()
      ensures cur == SkippedTo(input, old(cur)) && cur <= old(cur) + 1
      ensures line == old(line) + (if old(cur) < |input| && input[old(cur)] == '\n' then 1 else 0)
    {
      // The source's `while` returns from its first iteration, so it is an `if`.
      if cur < |input| {
        var c := input[cur];
        if c == '\n' {
          line := line + 1;
        }
        if IsBlank(c) {
          cur := cur + 1;
        }
      }
    }

    method NextSymbol(retval: Token) returns (ok: bool, tok: Token)
      requires Valid() && cur < |input|
      modifies this`cur
      ensures Valid()
      ensures ok <==> IsSymbolChar(input[old(cur)])
      ensures ok ==> (cur == old(cur) + 1 &&
        exists i :: FirstSymbolMatch(input[old(cur)], i) && tok == retval.(tokenType := SymbolTokens[i].token))
      ensures !ok ==> cur == old(cur) && tok == retval
    {
      for i := 0 to |SymbolTokens|
        invariant cur == old(cur)
        invariant forall j :: 0 <= j < i ==> SymbolTokens[j].symbol != input[cur]
      {
        if input[cur] == SymbolTokens[i].symbol {
          tok := retval.(tokenType := SymbolTokens[i].token);
          cur := cur + 1;
          return true, tok;
        }
      }
      return false, retval;
    }

    method NextNumber(retval: Token) returns (r: Lexed, tok: Token)
      requires Valid() && cur < |input|
      modifies this`cur, this`curString
      ensures Valid()
      ensures cur == LiteralEnd(input, old(cur)) && curString == input[old(cur)..cur]
      ensures (r, tok) == NumberStep(ScanNumber(curString), retval)
      ensures r == NoMatch ==> cur == old(cur)
    {
      var isFloat := TakeLiteral();
      if |curString| > 0 {
        if isFloat {
          if !ExtractsFloat(curString) {
            return LexError("Failed to lex float literal."), retval;
          }
          tok := retval.(tokenType := FLOAT_LIT, value := FloatValue(curString));
        } else {
          var v := ExtractInt64(curString);
          if v.None? {
            return LexError("Failed to lex integer literal."), retval;
          }
          tok := retval.(tokenType := INT_LIT, value := IntValue(v.value));
        }
        return Matched, tok;
      }
      return NoMatch, retval;
    }

    /** The characters of a number: an optional '-', then digits and at most
        one '.', gathered into `curString`. */
    method TakeLiteral() returns (isFloat: bool)
      requires Valid() && cur < |input|
      modifies this`cur, this`curString
      ensures Valid()
      ensures cur == LiteralEnd(input, old(cur)) && curString == input[old(cur)..cur]
      ensures isFloat <==> '.' in curString
    {
      ghost var p := cur;
      curString := "";
      if input[cur] == '-' {
        curString := curString + [input[cur]];
        cur := cur + 1;
      }
      isFloat := TakeDigits(p);
    }

    /** The number loop: digits and the first '.', up to the first other
        character or the end of the input. */
    method TakeDigits(ghost p: nat) returns (isFloat: bool)
      requires Valid() && p <= cur && curString == input[p..cur] && '.' !in curString
      modifies this`cur, this`curString
      ensures Valid()
      ensures cur == NumberEnd(input, old(cur), false) && curString == input[p..cur]
      ensures isFloat <==> '.' in curString
    {
      isFloat := false;
      ghost var start := cur;
      while cur < |input|
        invariant start <= cur <= |input|
        invariant curString == input[p..cur]
        invariant isFloat <==> '.' in curString
        invariant NumberEnd(input, cur, isFloat) == NumberEnd(input, start, false)
        decreases |input| - cur
      {
        var c := input[cur];
        if c == '.' && !isFloat {
          isFloat := true;
        } else if !('0' < c < '9') {
          break;
        }
        assert input[p..cur + 1] == input[p..cur] + [c];
        curString := curString + [c];
        cur := cur + 1;
      }
    }

    /** The loop tests the first character `c` again and again, never the
        current one, so it runs to the end of the input. */
    method NextID(retval: Token) returns (ok: bool, tok: Token)
      requires Valid() && cur < |input|
      modifies this`cur, this`curString, stringTable
      ensures Valid()
      ensures ok <==> IdStart(input[old(cur)])
      ensures !ok ==> (cur == old(cur) && curString == "" && tok == retval
        && stringTable.strings == old(stringTable.strings))
      ensures ok ==> cur == |input| && curString == Repeat(input[old(cur)], |input| - old(cur) + 1)
      ensures ok ==> exists idx: nat :: (tok == retval.(tokenType := ID, value := StringIndex(idx))
        && idx < |stringTable.strings| && stringTable.strings[idx] == curString)
      ensures ok ==> (stringTable.strings == old(stringTable.strings)
        || stringTable.strings == old(stringTable.strings) + [curString])
    {
      curString := "";
      var c := input[cur];
      if !IdStart(c) {
        return false, retval;
      }
      curString := curString + [c];
      while cur < |input| && (IsAlnum(c) || c == '_' || c == '?')
        invariant old(cur) <= cur <= |input|
        invariant curString == Repeat(c, cur - old(cur) + 1)
        invariant unchanged(stringTable)
        decreases |input| - cur
      {
        curString := curString + [c];
        cur := cur + 1;
      }
      var idx := stringTable.PushString(curString);
      return true, retval.(tokenType := ID, value := StringIndex(idx));
    }

    /** One token: skip whitespace, stop at the end, else the first of symbol,
        number and identifier that matches, stamped with the current line. */
    method Next(retval: Token) returns (r: Lexed, tok: Token)
      requires Valid()
      modifies this`cur, this`line, this`curString, stringTable
      ensures Valid()
      ensures line == old(line) + (if old(cur) < |input| && input[old(cur)] == '\n' then 1 else 0)
      ensures var p := SkippedTo(input, old(cur));
        p == |input| ==>
          r == NoMatch && tok == retval && cur == p && stringTable.strings == old(stringTable.strings)
      ensures var p := SkippedTo(input, old(cur));
        p < |input| && IsSymbolChar(input[p]) ==>
          r == Matched && cur == p + 1 && stringTable.strings == old(stringTable.strings) &&
          exists i :: FirstSymbolMatch(input[p], i) &&
            tok == retval.(tokenType := SymbolTokens[i].token, lineNumber := line)
      ensures var p := SkippedTo(input, old(cur));
        p < |input| && !IsSymbolChar(input[p]) && LiteralEnd(input, p) > p ==>
          cur == LiteralEnd(input, p) && stringTable.strings == old(stringTable.strings) &&
          var (n, t) := NumberStep(ScanNumber(input[p..cur]), retval);
          r == n && (n == Matched ==> tok == t.(lineNumber := line))
      ensures var p := SkippedTo(input, old(cur));
        p < |input| && !IsSymbolChar(input[p]) && LiteralEnd(input, p) == p && !IdStart(input[p]) ==>
          r == NoMatch && cur == p && tok == retval && stringTable.strings == old(stringTable.strings)
      ensures var p := SkippedTo(input, old(cur));
        p < |input| && !IsSymbolChar(input[p]) && LiteralEnd(input, p) == p && IdStart(input[p]) ==>
          r == Matched && cur == |input| &&
          (stringTable.strings == old(stringTable.strings)
            || stringTable.strings == old(stringTable.strings) + [Repeat(input[p], |input| - p + 1)]) &&
          exists idx: nat :: idx < |stringTable.strings| &&
            stringTable.strings[idx] == Repeat(input[p], |input| - p + 1) &&
            tok == retval.(tokenType := ID, value := StringIndex(idx), lineNumber := line)
    {
      SkipWhitespace();
      if cur == |input| {
        return NoMatch, retval;
      }
      var ok: bool;
      ok, tok := NextSymbol(retval);
      if ok {
        return Matched, tok.(lineNumber := line);
      }
      r, tok := NextNumber(retval);
      if r.LexError? {
        return;
      }
      if r == Matched {
        return Matched, tok.(lineNumber := line);
      }
      ok, tok := NextID(retval);
      if ok {
        r, tok := Matched, tok.(lineNumber := line);
      } else {
        r := NoMatch;
      }
    }
  }
}
