/**
 The record identifier: the first eight characters of the textual form of a
 random (version 4) UUID, upper-cased. The random UUID itself is an input
 here; only the truncation and the case change are modelled.
 */
module ShortIds {

  predicate IsLowerHex(c: char) {
    ('0' <= c <= '9') || ('a' <= c <= 'f')
  }

  predicate IsUpperHex(c: char) {
    ('0' <= c <= '9') || ('A' <= c <= 'F')
  }

  /** The value of a hexadecimal digit of either case. */
  function HexValue(c: char): int {
    if '0' <= c <= '9' then c as int - '0' as int
    else if 'a' <= c <= 'f' then c as int - 'a' as int + 10
    else if 'A' <= c <= 'F' then c as int - 'A' as int + 10
    else -1
  }

  /** The text of `str(uuid)`: five groups of 8, 4, 4, 4 and 12 lower-case
      hexadecimal digits separated by hyphens. */
  predicate IsUuidText(u: string) {
    && |u| == 36
    && forall k :: 0 <= k < |u| ==>
         if k == 8 || k == 13 || k == 18 || k == 23 then u[k] == '-' else IsLowerHex(u[k])
  }

  /** A well-formed record identifier: eight upper-case hexadecimal digits. */
  predicate IsShortId(id: string) {
    |id| == 8 && forall k :: 0 <= k < |id| ==> IsUpperHex(id[k])
  }

  /** `str.upper()` on ASCII letters; every other character is kept. */
  function UpperChar(c: char): char {
    if 'a' <= c <= 'z' then (c as int - 32) as char else c
  }

  /** `str.lower()` on ASCII letters; every other character is kept. */
  function LowerChar(c: char): char {
    if 'A' <= c <= 'Z' then (c as int + 32) as char else c
  }

  function Upper(s: string): (r: string)
    ensures |r| == |s|
    ensures forall k :: 0 <= k < |s| ==> r[k] == UpperChar(s[k])
  {
    if s == [] then [] else [UpperChar(s[0])] + Upper(s[1..])
  }

  function Lower(s: string): (r: string)
    ensures |r| == |s|
    ensures forall k :: 0 <= k < |s| ==> r[k] == LowerChar(s[k])
  {
    if s == [] then [] else [LowerChar(s[0])] + Lower(s[1..])
  }

  /** `str(uuid)[:8].upper()`: the identifier is well formed and spells the
      same eight hexadecimal digits as the first group of the UUID. */
  function ShortId(u: string): (id: string)
    requires IsUuidText(u)
    ensures IsShortId(id)
    ensures forall k :: 0 <= k < 8 ==> HexValue(id[k]) == HexValue(u[k])
  {
    Upper(u[..8])
  }

  /** Lower-casing the identifier gives back the UUID's first group. */
  lemma ShortIdRoundTrip(u: string)
    requires IsUuidText(u)
    ensures Lower(ShortId(u)) == u[..8]
  {
    var id := ShortId(u);
    forall k | 0 <= k < 8
      ensures Lower(id)[k] == u[k]
    {
      assert IsLowerHex(u[k]);
    }
  }
}
