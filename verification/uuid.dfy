/**
 * Identifiers. Records are keyed by the canonical text of a `uuid.UUID`
 * (`ID.String()`); the only other rendering the core produces is
 * `fmt.Sprintf("%d", id)`, which for a `[16]byte` prints the bytes as a
 * bracketed, space-separated list of decimal numbers.
 */
module Uuid {
  import opened GoStrings

  predicate IsHex(c: char) {
    '0' <= c <= '9' || 'a' <= c <= 'f' || 'A' <= c <= 'F'
  }

  /** The 8-4-4-4-12 text form produced by `uuid.UUID.String()`. */
  predicate IsText(s: string) {
    |s| == 36 &&
    forall i :: 0 <= i < 36 ==> if i == 8 || i == 13 || i == 18 || i == 23 then s[i] == '-' else IsHex(s[i])
  }

  function HexValue(c: char): (v: nat)
    requires IsHex(c)
    ensures v < 16
  {
    if '0' <= c <= '9' then c as nat - '0' as nat
    else if 'a' <= c <= 'f' then c as nat - 'a' as nat + 10
    else c as nat - 'A' as nat + 10
  }

  /** The hex digits of `s` as values, dashes and other characters skipped. */
  function Nibbles(s: string): (ns: seq<nat>)
    ensures forall i :: 0 <= i < |ns| ==> ns[i] < 16
  {
    if s == [] then []
    else (if IsHex(s[0]) then [HexValue(s[0])] else []) + Nibbles(s[1..])
  }

  /** Consecutive nibbles paired into bytes. */
  function Bytes(ns: seq<nat>): (bs: seq<nat>)
    requires forall i :: 0 <= i < |ns| ==> ns[i] < 16
    ensures forall i :: 0 <= i < |bs| ==> bs[i] < 256
  {
    if |ns| < 2 then [] else [ns[0] * 16 + ns[1]] + Bytes(ns[2..])
  }

  /** Decimal numbers separated by single spaces, as `%d` prints a slice. */
  function Spaced(bs: seq<nat>): (t: string)
    ensures forall i :: 0 <= i < |t| ==> '0' <= t[i] <= '9' || t[i] == ' '
  {
    if bs == [] then ""
    else if |bs| == 1 then NatToDecimal(bs[0])
    else NatToDecimal(bs[0]) + " " + Spaced(bs[1..])
  }

  /** `fmt.Sprintf("%d", id)` of the UUID whose text is `s`: its bytes in
      decimal, separated by spaces, inside brackets. */
  function PercentD(s: string): (r: string)
    ensures |r| >= 2 && r[0] == '[' && r[|r| - 1] == ']'
    ensures forall i :: 0 < i < |r| - 1 ==> '0' <= r[i] <= '9' || r[i] == ' '
    ensures IsText(s) ==> r[1..|r| - 1] == Spaced(Bytes(Nibbles(s)))
  {
    "[" + Spaced(Bytes(Nibbles(s))) + "]"
  }

  /** A group of hex digits followed by a dash contributes one nibble per digit. */
  lemma {:induction false} NibblesGroup(a: string, rest: string)
    requires forall i :: 0 <= i < |a| ==> IsHex(a[i])
    ensures |Nibbles(a + "-" + rest)| == |a| + |Nibbles(rest)|
  {
    if a == [] {
      assert a + "-" + rest == ['-'] + rest;
      assert (['-'] + rest)[1..] == rest;
    } else {
      assert (a + "-" + rest)[1..] == a[1..] + "-" + rest;
      NibblesGroup(a[1..], rest);
    }
  }

  lemma {:induction false} NibblesHex(a: string)
    requires forall i :: 0 <= i < |a| ==> IsHex(a[i])
    ensures |Nibbles(a)| == |a|
  {
    if a != [] {
      NibblesHex(a[1..]);
    }
  }

  lemma {:induction false} BytesHalf(ns: seq<nat>)
    requires forall i :: 0 <= i < |ns| ==> ns[i] < 16
    requires |ns| % 2 == 0
    ensures |Bytes(ns)| == |ns| / 2
  {
    if |ns| >= 2 {
      BytesHalf(ns[2..]);
    }
  }

  /** The text form of an id holds 32 hex digits, so `%d` prints 16 bytes. */
  lemma TextSixteenBytes(s: string)
    requires IsText(s)
    ensures |Nibbles(s)| == 32 && |Bytes(Nibbles(s))| == 16
  {
    assert s == s[..8] + "-" + s[9..];
    assert s[9..] == s[9..13] + "-" + s[14..];
    assert s[14..] == s[14..18] + "-" + s[19..];
    assert s[19..] == s[19..23] + "-" + s[24..];
    NibblesHex(s[24..]);
    NibblesGroup(s[19..23], s[24..]);
    NibblesGroup(s[14..18], s[19..]);
    NibblesGroup(s[9..13], s[14..]);
    NibblesGroup(s[..8], s[9..]);
    BytesHalf(Nibbles(s));
  }

  /** The `%d` rendering of an id never equals the text of any id. */
  lemma PercentDIsNeverText(s: string, t: string)
    requires IsText(t)
    ensures PercentD(s) != t
  {
    assert IsHex(t[0]);
  }
}
