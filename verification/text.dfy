/** String helpers with Python's semantics: str.strip(), clamped slicing, `in` on strings, str.lower(). */
module Text {

  /** Python's str.isspace() for one character (the 29 Unicode white-space code points). */
  predicate IsSpace(c: char) {
    var n := c as int;
    (9 <= n <= 13) || (28 <= n <= 32) || n == 0x85 || n == 0xA0 || n == 0x1680
    || (0x2000 <= n <= 0x200A) || n == 0x2028 || n == 0x2029 || n == 0x202F
    || n == 0x205F || n == 0x3000
  }

  function TrimLeft(s: string): (r: string)
    ensures |r| <= |s| && r == s[|s| - |r|..]
    ensures forall i :: 0 <= i < |s| - |r| ==> IsSpace(s[i])
    ensures r == [] || !IsSpace(r[0])
  {
    if s != [] && IsSpace(s[0]) then TrimLeft(s[1..]) else s
  }

  function TrimRight(s: string): (r: string)
    ensures |r| <= |s| && r == s[..|r|]
    ensures forall i :: |r| <= i < |s| ==> IsSpace(s[i])
    ensures r == [] || !IsSpace(r[|r| - 1])
  {
    if s != [] && IsSpace(s[|s| - 1]) then TrimRight(s[..|s| - 1]) else s
  }

  /** Number of white-space characters that str.strip() removes from the front of `s`. */
  function LeadingSpace(s: string): nat {
    |s| - |TrimLeft(s)|
  }

  /** Python's str.strip(). */
  function Trim(s: string): string {
    TrimRight(TrimLeft(s))
  }

  /** str.strip() keeps the infix of `s` left after removing exactly the white space at both of its ends. */
  lemma TrimSpec(s: string)
    ensures var r := Trim(s);
      && LeadingSpace(s) + |r| <= |s|
      && r == s[LeadingSpace(s)..LeadingSpace(s) + |r|]
      && (forall j :: 0 <= j < LeadingSpace(s) ==> IsSpace(s[j]))
      && (forall j :: LeadingSpace(s) + |r| <= j < |s| ==> IsSpace(s[j]))
      && (r == [] || (!IsSpace(r[0]) && !IsSpace(r[|r| - 1])))
  {
  }

  /** Python's s[a:b] for non-negative bounds: out-of-range bounds are clamped, never an error. */
  function Slice(s: string, a: nat, b: nat): (r: string)
    ensures |r| == if a < |s| && a < b then (if b < |s| then b else |s|) - a else 0
  {
    if a < |s| && a < b then s[a..if b < |s| then b else |s|] else []
  }

  predicate OccursAt(sub: string, s: string, i: nat) {
    i + |sub| <= |s| && s[i..i + |sub|] == sub
  }

  /** Python's `sub in s` on strings. */
  predicate IsInfix(sub: string, s: string) {
    exists i: nat | i <= |s| :: OccursAt(sub, s, i)
  }

  function LowerChar(c: char): char {
    if 'A' <= c <= 'Z' then (c as int + 32) as char else c
  }

  /** str.lower() restricted to ASCII letters. */
  function Lower(s: string): (r: string)
    ensures |r| == |s|
  {
    seq(|s|, i requires 0 <= i < |s| => LowerChar(s[i]))
  }

  function DigitChar(d: nat): char
    requires d < 10
  {
    ('0' as int + d) as char
  }

  /** Decimal rendering of a natural number, as str() prints it. */
  function NatToString(n: nat): string
    decreases n
  {
    if n < 10 then [DigitChar(n)] else NatToString(n / 10) + [DigitChar(n % 10)]
  }

  /** str() of an int. */
  function IntToString(n: int): string {
    if n < 0 then "-" + NatToString(-n) else NatToString(n)
  }
}
