/** Character-level helpers shared by the renderers, the lexers and the Python
    conversion: decimal rendering and parsing of integers, splitting on a
    separator character, and joining with a separator string. */
module Text {
  import opened Wrappers

  predicate IsDigit(c: char) { '0' <= c <= '9' }

  predicate AllDigits(s: string) {
    forall i :: 0 <= i < |s| ==> IsDigit(s[i])
  }

  function DigitChar(d: nat): (c: char)
    requires d < 10
    ensures IsDigit(c) && (c as int) - ('0' as int) == d
  {
    (('0' as int) + d) as char
  }

  /** Value of a string of decimal digits, most significant first. */
  function DigitsValue(s: string): nat
    requires AllDigits(s)
    decreases |s|
  {
    if s == [] then 0
    else DigitsValue(s[..|s| - 1]) * 10 + ((s[|s| - 1] as int) - ('0' as int))
  }

  /** Decimal spelling of a natural number, as printed by an output stream. */
  function NatToString(n: nat): (s: string)
    ensures |s| >= 1 && AllDigits(s)
    decreases n
  {
    if n < 10 then [DigitChar(n)] else NatToString(n / 10) + [DigitChar(n % 10)]
  }

  /** Decimal spelling of a signed integer: a '-' before the magnitude when negative. */
  function IntToString(i: int): string {
    if i < 0 then "-" + NatToString(-i) else NatToString(i)
  }

  /** Optional sign followed by at least one decimal digit; anything else is not an integer. */
  function ParseInt(s: string): (r: Option<int>)
    ensures r.Some? ==> |s| >= 1
  {
    if |s| >= 1 && (s[0] == '-' || s[0] == '+') then
      if |s| >= 2 && AllDigits(s[1..]) then
        var m: int := DigitsValue(s[1..]);
        Some(if s[0] == '-' then -m else m)
      else None
    else if |s| >= 1 && AllDigits(s) then Some(DigitsValue(s))
    else None
  }

  lemma {:induction false} NatToStringValue(n: nat)
    ensures DigitsValue(NatToString(n)) == n
  {
    var s := NatToString(n);
    if n >= 10 {
      NatToStringValue(n / 10);
      assert s[..|s| - 1] == NatToString(n / 10);
    }
  }

  /** Parsing a rendered integer gives the integer back. */
  lemma IntToStringRoundTrip(i: int)
    ensures ParseInt(IntToString(i)) == Some(i)
  {
    if i < 0 {
      NatToStringValue(-i);
      assert IntToString(i)[1..] == NatToString(-i);
    } else {
      NatToStringValue(i);
    }
  }

  /** `s` cut at every occurrence of `c`; always at least one piece. */
  function SplitOn(s: string, c: char): (r: seq<string>)
    ensures |r| >= 1
    decreases |s|
  {
    if s == [] then [""]
    else
      var rest := SplitOn(s[1..], c);
      if s[0] == c then [""] + rest else [[s[0]] + rest[0]] + rest[1..]
  }

  lemma {:induction false} SplitOnNone(a: string, c: char)
    requires c !in a
    ensures SplitOn(a, c) == [a]
  {
    if a != [] {
      SplitOnNone(a[1..], c);
      assert [a[0]] + a[1..] == a;
    }
  }

  lemma {:induction false} SplitOnFirst(a: string, b: string, c: char)
    requires c !in a
    ensures SplitOn(a + [c] + b, c) == [a] + SplitOn(b, c)
  {
    if a == [] {
      assert (a + [c] + b)[1..] == b;
    } else {
      SplitOnFirst(a[1..], b, c);
      assert (a + [c] + b)[1..] == a[1..] + [c] + b;
      assert [a[0]] + a[1..] == a;
    }
  }

  /** The pieces of `parts` with `sep` between neighbours and not after the last. */
  function Join(parts: seq<string>, sep: string): string
    decreases |parts|
  {
    if parts == [] then ""
    else if |parts| == 1 then parts[0]
    else parts[0] + sep + Join(parts[1..], sep)
  }

  /** Every piece of `parts` followed by `sep`, as a left-to-right loop emits them. */
  function Terminated(parts: seq<string>, sep: string): string
    decreases |parts|
  {
    if parts == [] then "" else Terminated(parts[..|parts| - 1], sep) + parts[|parts| - 1] + sep
  }

  lemma {:induction false} TerminatedFront(parts: seq<string>, sep: string)
    requires parts != []
    ensures Terminated(parts, sep) == parts[0] + sep + Terminated(parts[1..], sep)
  {
    if |parts| > 1 {
      var init, last, tail := parts[..|parts| - 1], parts[|parts| - 1], parts[1..];
      TerminatedFront(init, sep);
      assert tail[..|tail| - 1] == init[1..] && tail[|tail| - 1] == last && init[0] == parts[0];
      calc {
        Terminated(parts, sep);
        Terminated(init, sep) + last + sep;
        (parts[0] + sep + Terminated(init[1..], sep)) + last + sep;
        parts[0] + sep + (Terminated(init[1..], sep) + last + sep);
        parts[0] + sep + Terminated(tail, sep);
      }
    } else {
      assert parts[..0] == [] && parts[1..] == [];
    }
  }

  /** What the loop emits before the last piece, followed by the last piece, is the join. */
  lemma {:induction false} TerminatedThenLast(parts: seq<string>, sep: string)
    requires parts != []
    ensures Terminated(parts[..|parts| - 1], sep) + parts[|parts| - 1] == Join(parts, sep)
  {
    if |parts| > 1 {
      var init := parts[..|parts| - 1];
      TerminatedFront(init, sep);
      TerminatedThenLast(parts[1..], sep);
      assert init[1..] == parts[1..][..|parts[1..]| - 1];
      assert init[0] == parts[0];
    } else {
      assert parts[..0] == [];
    }
  }
}
