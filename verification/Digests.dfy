/** Content digests in their canonical form (crates/quill-storage/src/digest.rs).

    `Parse` is the only way to build a digest, so the type of digests is the set
    of values that `Parse` can return: algorithm `sha256` and 64 lower-case hex
    digits. Which of its errors a rejected string gets is not modelled, because
    every caller treats them alike. */
module Digests {

  import opened Base

  datatype RawDigest = RawDigest(algorithm: string, hex: string)

  const ALGORITHM := "sha256"
  const PREFIX := "sha256:"
  const HEX_LENGTH := 64

  predicate LowerHexDigit(c: char) {
    '0' <= c <= '9' || 'a' <= c <= 'f'
  }

  predicate HexDigit(c: char) {
    LowerHexDigit(c) || 'A' <= c <= 'F'
  }

  predicate CanonicalHex(hex: string) {
    |hex| == HEX_LENGTH && forall i :: 0 <= i < |hex| ==> LowerHexDigit(hex[i])
  }

  predicate Canonical(d: RawDigest) {
    d.algorithm == ALGORITHM && CanonicalHex(d.hex)
  }

  type Digest = d: RawDigest | Canonical(d) witness RawDigest(ALGORITHM, seq(HEX_LENGTH, _ => '0'))

  function LowerChar(c: char): char {
    if 'A' <= c <= 'F' then (c as int + 32) as char else c
  }

  function Lower(s: string): string {
    seq(|s|, i requires 0 <= i < |s| => LowerChar(s[i]))
  }

  /** Splits at the first `c`, as `str::split_once` does. */
  function SplitOnce(s: string, c: char): (r: Option<(string, string)>)
    ensures r.None? <==> c !in s
    ensures r.Some? ==> s == r.value.0 + [c] + r.value.1 && c !in r.value.0
  {
    if s == [] then None
    else if s[0] == c then Some(([], s[1..]))
    else
      match SplitOnce(s[1..], c)
      case None => None
      case Some((before, after)) => Some(([s[0]] + before, after))
  }

  function Parse(s: string): (r: Option<Digest>)
  {
    match SplitOnce(s, ':')
    case None => None
    case Some((algorithm, hex)) =>
      if algorithm != ALGORITHM || |hex| != HEX_LENGTH || exists c :: c in hex && !HexDigit(c) then
        None
      else
        assert forall i :: 0 <= i < |hex| ==> hex[i] in hex;
        Some(RawDigest(algorithm, Lower(hex)))
  }

  function Display(d: Digest): string {
    d.algorithm + ":" + d.hex
  }

  /** The digest a file of a blob directory is taken for (gc.rs:119). */
  function OfFileName(name: string): Option<Digest> {
    Parse(PREFIX + name)
  }

  predicate WellFormed(s: string) {
    |s| == 7 + HEX_LENGTH && s[..7] == PREFIX && forall i :: 7 <= i < |s| ==> HexDigit(s[i])
  }

  lemma {:induction false} SplitAtColon(algorithm: string, rest: string)
    requires ':' !in algorithm
    ensures SplitOnce(algorithm + ":" + rest, ':') == Some((algorithm, rest))
  {
    var s := algorithm + ":" + rest;
    if algorithm == [] {
      assert s[1..] == rest;
    } else {
      assert algorithm[0] in algorithm;
      assert s[1..] == algorithm[1..] + ":" + rest && [s[0]] + algorithm[1..] == algorithm;
      SplitAtColon(algorithm[1..], rest);
    }
  }

  /** `Parse` accepts exactly the well-formed strings, and what it returns prints
      as the input with upper-case hex digits folded to lower case. */
  lemma ParseExact(s: string)
    ensures Parse(s).Some? <==> WellFormed(s)
    ensures Parse(s).Some? ==> Display(Parse(s).value) == s[..7] + Lower(s[7..])
  {
    if WellFormed(s) {
      assert s == ALGORITHM + ":" + s[7..];
      SplitAtColon(ALGORITHM, s[7..]);
    }
    if Parse(s).Some? {
      var hex := SplitOnce(s, ':').value.1;
      assert s[7..] == hex;
      forall i | 7 <= i < |s| ensures HexDigit(s[i]) {
        assert s[i] == hex[i - 7] && hex[i - 7] in hex;
      }
      assert s[..7] == PREFIX;
    }
  }

  lemma LowerFixesCanonical(hex: string)
    requires CanonicalHex(hex)
    ensures Lower(hex) == hex
  {
  }

  /** Printing then parsing gives the digest back, so a digest can be used as a
      key on disk, in the sidecars and in memory without losing its identity. */
  lemma ParseDisplay(d: Digest)
    ensures Parse(Display(d)) == Some(d)
    ensures OfFileName(d.hex) == Some(d)
  {
    assert Display(d) == PREFIX + d.hex;
    ParseExact(Display(d));
    assert Display(d)[7..] == d.hex;
    LowerFixesCanonical(d.hex);
    SplitAtColon(ALGORITHM, d.hex);
  }

  /** Two accepted spellings denote one digest exactly when they differ in case only. */
  lemma SameDigestUpToCase(s: string, t: string)
    requires Parse(s).Some? && Parse(t).Some?
    ensures Parse(s) == Parse(t) <==> Lower(s[7..]) == Lower(t[7..])
  {
    ParseExact(s);
    ParseExact(t);
    var a, b := Parse(s).value, Parse(t).value;
    assert Display(a)[7..] == a.hex && Display(b)[7..] == b.hex;
  }

  lemma DisplayInjective(a: Digest, b: Digest)
    requires Display(a) == Display(b)
    ensures a == b
  {
    ParseDisplay(a);
    ParseDisplay(b);
  }

}
