/** The two pure pieces of the graph export: escaping a label for the record
    shape, and spelling a node's type tag. */
module Dot {
  import opened Ast

  /** The characters a record label must escape. */
  predicate Special(c: char) {
    c == '<' || c == '>' || c == '|'
  }

  /** `s` with a backslash put before every `c`. */
  function EscapeChar(s: string, c: char): (r: string)
    decreases |s|
  {
    if s == [] then []
    else (if s[0] == c then ['\\', c] else [s[0]]) + EscapeChar(s[1..], c)
  }

  lemma {:induction false} EscapeCharAppend(a: string, b: string, c: char)
    ensures EscapeChar(a + b, c) == EscapeChar(a, c) + EscapeChar(b, c)
    decreases |a|
  {
    if a != [] {
      EscapeCharAppend(a[1..], b, c);
      assert (a + b)[0] == a[0] && (a + b)[1..] == a[1..] + b;
    } else {
      assert a + b == b;
    }
  }

  lemma {:induction false} EscapeCharAbsent(s: string, c: char)
    requires c !in s
    ensures EscapeChar(s, c) == s
    decreases |s|
  {
    if s != [] {
      EscapeCharAbsent(s[1..], c);
    }
  }

  /** The first position at or after `from` holding `c`, as a string search
      gives it; none when there is no such position. */
  function Find(s: string, c: char, from: nat): (r: int)
    ensures r == -1 || (from <= r < |s| && s[r] == c)
    ensures r == -1 ==> forall k :: from <= k < |s| ==> s[k] != c
    ensures r != -1 ==> forall k :: from <= k < r ==> s[k] != c
    decreases |s| - from
  {
    if from >= |s| then -1
    else if s[from] == c then from
    else Find(s, c, from + 1)
  }

  /** Escaping up to and including the next `c`, `gap` characters on. */
  lemma EscapeThrough(str: string, c: char, done: nat, gap: nat)
    requires done + gap < |str| && str[done + gap] == c && c !in str[done..done + gap]
    ensures EscapeChar(str[..done + gap + 1], c) == EscapeChar(str[..done], c) + str[done..done + gap] + ['\\', c]
  {
    EscapeCharAbsent(str[done..done + gap], c);
    EscapeCharAppend(str[..done], str[done..done + gap], c);
    EscapeCharAppend(str[..done] + str[done..done + gap], [c], c);
    assert str[..done] + str[done..done + gap] + [c] == str[..done + gap + 1];
  }

  /** Escaping the whole string when no `c` is left after `done`. */
  lemma EscapeRest(str: string, c: char, done: nat)
    requires done <= |str| && c !in str[done..]
    ensures EscapeChar(str, c) == EscapeChar(str[..done], c) + str[done..]
  {
    EscapeCharAbsent(str[done..], c);
    EscapeCharAppend(str[..done], str[done..], c);
    assert str[..done] + str[done..] == str;
  }

  /** Escapes every `c` of `str`: replace it by a backslash, step past, insert
      `c` after it, step past, and search on from there. */
  method Sanitize(str: string, c: char) returns (out: string)
    requires c != '\\'
    ensures out == EscapeChar(str, c)
  {
    out := str;
    var index := 0;
    ghost var done := 0;
    while true
      invariant 0 <= done <= |str| && index <= |out|
      invariant out[..index] == EscapeChar(str[..done], c)
      invariant out[index..] == str[done..]
      decreases |str| - done
    {
      var found := Find(out, c, index);
      if found == -1 {
        assert c !in str[done..] by {
          forall k | done <= k < |str| ensures str[k] != c {
            assert out[index..][k - done] == str[k];
          }
        }
        EscapeRest(str, c, done);
        assert out == out[..index] + out[index..];
        break;
      }
      ghost var gap := found - index;
      assert c !in str[done..done + gap] && str[done + gap] == c by {
        forall k | done <= k <= done + gap ensures str[k] == out[index..][k - done] {
        }
      }
      EscapeThrough(str, c, done, gap);
      ghost var before := out;
      out := out[..found] + "\\" + out[found + 1..];
      index := found + 1;
      out := out[..index] + [c] + out[index..];
      index := index + 1;
      assert out[..index] == before[..found] + ['\\', c];
      assert before[..found] == before[..found - gap] + str[done..done + gap];
      assert out[index..] == before[found + 1..];
      done := done + gap + 1;
    }
  }

  /** Escapes '<', then '>', then '|'. */
  method DotSanitize(str: string) returns (out: string)
    ensures out == Sanitized(str)
  {
    out := Sanitize(str, '<');
    out := Sanitize(out, '>');
    out := Sanitize(out, '|');
    ThreePassesSanitize(str);
  }

  /** What a character becomes in a label. */
  function Piece(c: char): string {
    if Special(c) then ['\\', c] else [c]
  }

  /** Each character of `s` replaced by its piece, in order. */
  function Sanitized(s: string): string
    decreases |s|
  {
    if s == [] then [] else Piece(s[0]) + Sanitized(s[1..])
  }

  /** Escaping the three characters one after another is escaping each
      character of the input once. */
  lemma {:induction false} ThreePassesSanitize(s: string)
    ensures EscapeChar(EscapeChar(EscapeChar(s, '<'), '>'), '|') == Sanitized(s)
    decreases |s|
  {
    if s != [] {
      ThreePassesSanitize(s[1..]);
      var p1 := if s[0] == '<' then ['\\', '<'] else [s[0]];
      EscapeCharAppend(p1, EscapeChar(s[1..], '<'), '>');
      var p2 := EscapeChar(p1, '>');
      EscapeCharAppend(p2, EscapeChar(EscapeChar(s[1..], '<'), '>'), '|');
      assert EscapeChar(p2, '|') == Piece(s[0]) by {
        if s[0] == '<' {
          assert EscapeChar(['<'], '>') == ['<'];
          assert p2 == ['\\', '<'];
          assert EscapeChar(['\\', '<'], '|') == ['\\'] + EscapeChar(['<'], '|');
        } else if s[0] == '>' {
          assert p2 == ['\\', '>'];
          assert EscapeChar(['\\', '>'], '|') == ['\\'] + EscapeChar(['>'], '|');
        } else {
          assert p2 == [s[0]];
        }
      }
    }
  }

  function CountSpecial(s: string): nat
    decreases |s|
  {
    if s == [] then 0 else (if Special(s[0]) then 1 else 0) + CountSpecial(s[1..])
  }

  /** The label grows by one character per escaped character. */
  lemma {:induction false} SanitizedLength(s: string)
    ensures |Sanitized(s)| == |s| + CountSpecial(s)
    decreases |s|
  {
    if s != [] {
      SanitizedLength(s[1..]);
    }
  }

  /** Reads a label back: a backslash before one of the three characters is
      dropped, everything else is kept. */
  function Unsanitized(s: string): string
    decreases |s|
  {
    if s == [] then []
    else if |s| >= 2 && s[0] == '\\' && Special(s[1]) then [s[1]] + Unsanitized(s[2..])
    else [s[0]] + Unsanitized(s[1..])
  }

  /** No sanitized label starts with one of the three characters. */
  lemma SanitizedStart(s: string)
    ensures Sanitized(s) != [] ==> !Special(Sanitized(s)[0])
  {
  }

  /** Reading a label back recovers the text: every other character, backslashes
      included, is kept in order, and nothing is escaped twice. */
  lemma {:induction false} SanitizeRoundTrip(s: string)
    ensures Unsanitized(Sanitized(s)) == s
    decreases |s|
  {
    if s != [] {
      SanitizeRoundTrip(s[1..]);
      var rest := Sanitized(s[1..]);
      SanitizedStart(s[1..]);
      var r := Piece(s[0]) + rest;
      if Special(s[0]) {
        assert r[2..] == rest;
      } else {
        assert r[1..] == rest;
        if s[0] == '\\' && |r| >= 2 {
          assert r[1] == rest[0];
        }
      }
    }
  }

  /** The integer value of a four-character tag literal: the first character
      in the most significant of its four low bytes. */
  function TagValue(tag: string): nat
    requires |tag| == 4 && forall i :: 0 <= i < 4 ==> (tag[i] as int) < 256
  {
    (tag[0] as int) * 0x100_0000 + (tag[1] as int) * 0x1_0000 + (tag[2] as int) * 0x100 + (tag[3] as int)
  }

  /** Byte `i` of the 4-byte tag value `v` as stored in memory. */
  function MemoryByte(v: nat, i: nat, littleEndian: bool): (b: nat)
    requires i < 4
    ensures b < 256
  {
    var shift := if littleEndian then i else 3 - i;
    (v / Pow256(shift)) % 256
  }

  function Pow256(k: nat): (p: nat)
    ensures p >= 1
  {
    if k == 0 then 1 else 256 * Pow256(k - 1)
  }

  /** The four characters written for a tag value: the value's first four
      bytes in memory, last first. */
  function PrintNodeType(v: nat, littleEndian: bool): (s: string)
    ensures |s| == 4
  {
    [MemoryByte(v, 3, littleEndian) as char, MemoryByte(v, 2, littleEndian) as char,
     MemoryByte(v, 1, littleEndian) as char, MemoryByte(v, 0, littleEndian) as char]
  }

  /** The four bytes of a tag value, least significant first, are the tag's
      characters from last to first. */
  lemma TagBytes(tag: string)
    requires |tag| == 4 && forall i :: 0 <= i < 4 ==> (tag[i] as int) < 256
    ensures var v := TagValue(tag);
      v % 256 == tag[3] as int && (v / Pow256(1)) % 256 == tag[2] as int
      && (v / Pow256(2)) % 256 == tag[1] as int && (v / Pow256(3)) % 256 == tag[0] as int
  {
    var a, b, c, d := tag[0] as int, tag[1] as int, tag[2] as int, tag[3] as int;
    var v := TagValue(tag);
    assert Pow256(1) == 0x100 && Pow256(2) == 0x1_0000 && Pow256(3) == 0x100_0000;
    assert v == ((a * 256 + b) * 256 + c) * 256 + d;
    assert v % 256 == d;
    assert v / 0x100 == (a * 256 + b) * 256 + c;
    assert (v / 0x100) % 256 == c;
    assert v / 0x1_0000 == a * 256 + b;
    assert (v / 0x1_0000) % 256 == b;
    assert v / 0x100_0000 == a;
  }

  /** On a little-endian host the printed text is the tag's own spelling. */
  lemma PrintTagLittleEndian(tag: string)
    requires |tag| == 4 && forall i :: 0 <= i < 4 ==> (tag[i] as int) < 256
    ensures PrintNodeType(TagValue(tag), true) == tag
  {
    TagBytes(tag);
  }

  /** On a big-endian host the printed text is the tag's spelling reversed. */
  lemma PrintTagBigEndian(tag: string)
    requires |tag| == 4 && forall i :: 0 <= i < 4 ==> (tag[i] as int) < 256
    ensures PrintNodeType(TagValue(tag), false) == [tag[3], tag[2], tag[1], tag[0]]
  {
    TagBytes(tag);
  }

  /** Every node's tag prints as its spelling on a little-endian host. */
  lemma PrintNodeTag(n: Node)
    ensures var t := Tag(n);
      (forall i :: 0 <= i < 4 ==> (t[i] as int) < 256) && PrintNodeType(TagValue(t), true) == t
  {
    PrintTagLittleEndian(Tag(n));
  }
}
