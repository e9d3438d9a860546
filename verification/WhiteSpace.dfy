/** When `strings.TrimSpace` leaves nothing of a string. Strings are sequences of bytes, decoded as UTF-8. */
module WhiteSpace {

  /** `unicode.IsSpace`. */
  predicate IsSpace(c: nat) {
    || 0x09 <= c <= 0x0D || c == 0x20 || c == 0x85 || c == 0xA0 || c == 0x1680 || 0x2000 <= c <= 0x200A
    || c == 0x2028 || c == 0x2029 || c == 0x202F || c == 0x205F || c == 0x3000
  }

  /** The UTF-8 encoding of a code point, as far as white space needs it. */
  function Utf8(c: nat): string
    requires c <= 0x3000
  {
    if c < 0x80 then [c as char]
    else if c < 0x800 then [(0xC0 + c / 64) as char, (0x80 + c % 64) as char]
    else [(0xE0 + c / 4096) as char, (0x80 + c / 64 % 64) as char, (0x80 + c % 64) as char]
  }

  /** The length of the white-space character that the bytes begin with, 0 if they do not. */
  function SpaceLength(s: string): (n: nat)
    ensures n <= |s|
  {
    if s == [] then 0
    else if '\t' <= s[0] <= '\r' || s[0] == ' ' then 1
    else if |s| >= 2 && s[0] as int == 0xC2 && s[1] as int in {0x85, 0xA0} then 2
    else if |s| >= 3 && IsWideSpace(s[0] as int, s[1] as int, s[2] as int) then 3
    else 0
  }

  predicate IsWideSpace(a: int, b: int, c: int) {
    || (a == 0xE1 && b == 0x9A && c == 0x80)
    || (a == 0xE2 && b == 0x80 && (0x80 <= c <= 0x8A || c in {0xA8, 0xA9, 0xAF}))
    || (a == 0xE2 && b == 0x81 && c == 0x9F)
    || (a == 0xE3 && b == 0x80 && c == 0x80)
  }

  predicate Blank(s: string)
    decreases |s|
  {
    s == [] || (SpaceLength(s) > 0 && Blank(s[SpaceLength(s)..]))
  }

  // ---------------------------------------------------------------- what blank means

  function Encoded(cs: seq<nat>): string
    requires forall i | 0 <= i < |cs| :: cs[i] <= 0x3000
  {
    if cs == [] then [] else Utf8(cs[0]) + Encoded(cs[1..])
  }

  predicate AllSpaces(cs: seq<nat>) {
    forall i | 0 <= i < |cs| :: IsSpace(cs[i])
  }

  /** A string is blank when it encodes white-space characters and nothing else. */
  ghost predicate EncodesSpaces(s: string) {
    exists cs: seq<nat> :: AllSpaces(cs) && s == Encoded(cs)
  }

  lemma SpaceIsRecognised(c: nat, rest: string)
    requires IsSpace(c)
    ensures SpaceLength(Utf8(c) + rest) == |Utf8(c)| > 0
  {
  }

  /** The bytes are those of one white-space character. */
  ghost predicate EncodesSpace(bytes: string) {
    exists c: nat :: IsSpace(c) && bytes == Utf8(c)
  }

  lemma SpaceDecodes(s: string)
    requires SpaceLength(s) > 0
    ensures EncodesSpace(s[..SpaceLength(s)])
  {
    var c: nat :=
      if SpaceLength(s) == 1 then s[0] as int
      else if SpaceLength(s) == 2 then s[1] as int
      else (s[0] as int - 0xE0) * 4096 + (s[1] as int - 0x80) * 64 + (s[2] as int - 0x80);
    assert IsSpace(c) && s[..SpaceLength(s)] == Utf8(c);
  }

  lemma {:induction false} EncodingIsBlank(cs: seq<nat>)
    requires AllSpaces(cs)
    ensures Blank(Encoded(cs))
  {
    if cs != [] {
      EncodingIsBlank(cs[1..]);
      SpaceIsRecognised(cs[0], Encoded(cs[1..]));
      assert (Utf8(cs[0]) + Encoded(cs[1..]))[|Utf8(cs[0])|..] == Encoded(cs[1..]);
    }
  }

  lemma EncodedFirst(c: nat, rest: seq<nat>)
    requires IsSpace(c) && AllSpaces(rest)
    ensures Encoded([c] + rest) == Utf8(c) + Encoded(rest)
  {
    assert ([c] + rest)[1..] == rest;
  }

  lemma OneSpaceMore(s: string, n: nat)
    requires n <= |s| && EncodesSpace(s[..n]) && EncodesSpaces(s[n..])
    ensures EncodesSpaces(s)
  {
    var c: nat :| IsSpace(c) && s[..n] == Utf8(c);
    var cs: seq<nat> :| AllSpaces(cs) && s[n..] == Encoded(cs);
    EncodedFirst(c, cs);
    assert AllSpaces([c] + cs) && s == s[..n] + s[n..];
  }

  lemma {:induction false} BlankIsEncoding(s: string)
    requires Blank(s)
    ensures EncodesSpaces(s)
    decreases |s|
  {
    if s == [] {
      assert AllSpaces([]) && Encoded([]) == s;
    } else {
      SpaceDecodes(s);
      BlankIsEncoding(s[SpaceLength(s)..]);
      OneSpaceMore(s, SpaceLength(s));
    }
  }

  /** The byte-wise test finds a string blank exactly when it encodes white space and nothing else. */
  lemma BlankExactly(s: string)
    ensures Blank(s) <==> EncodesSpaces(s)
  {
    if Blank(s) {
      BlankIsEncoding(s);
    }
    if cs: seq<nat> :| AllSpaces(cs) && s == Encoded(cs) {
      EncodingIsBlank(cs);
    }
  }
}
