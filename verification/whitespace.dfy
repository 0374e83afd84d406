/** Which manifests are blank: what is left of a text when it is trimmed depends on the characters that have the
    Unicode property White_Space, in their UTF-8 form (section 3 of RFC 3629). */
module Whitespace {
  import opened Hasher
  import opened Processor

  /** The characters of the basic plane, where all white space is. */
  type Character = c: nat | c < 0x10000

  predicate IsSpace(c: Character) {
    || 9 <= c <= 13 || c == 32 || c == 0x85 || c == 0xA0 || c == 0x1680 || 0x2000 <= c <= 0x200A
    || c == 0x2028 || c == 0x2029 || c == 0x202F || c == 0x205F || c == 0x3000
  }

  function Utf8(c: Character): (s: seq<byte>)
    ensures 1 <= |s| <= 3
  {
    if c < 0x80 then [c as byte]
    else if c < 0x800 then [(0xC0 + c / 0x40) as byte, (0x80 + c % 0x40) as byte]
    else [(0xE0 + c / 0x1000) as byte, (0x80 + c / 0x40 % 0x40) as byte, (0x80 + c % 0x40) as byte]
  }

  ghost predicate AllSpaces(text: seq<Character>) {
    forall i :: 0 <= i < |text| ==> IsSpace(text[i])
  }

  function Encoded(text: seq<Character>): seq<byte> {
    if text == [] then [] else Utf8(text[0]) + Encoded(text[1..])
  }

  /** The space that opens a text is one character, and no other text opens with one. */
  lemma OpeningSpace(m: seq<byte>) returns (c: Character)
    requires SpaceLength(m) > 0
    ensures IsSpace(c) && m[..SpaceLength(m)] == Utf8(c)
  {
    if SpaceLength(m) == 1 {
      c := m[0] as nat;
    } else if SpaceLength(m) == 2 {
      c := 0x40 * (m[0] as nat - 0xC0) + (m[1] as nat - 0x80);
    } else {
      c := 0x1000 * (m[0] as nat - 0xE0) + 0x40 * (m[1] as nat - 0x80) + (m[2] as nat - 0x80);
    }
  }

  lemma SpaceOpens(c: Character, rest: seq<byte>)
    requires IsSpace(c)
    ensures SpaceLength(Utf8(c) + rest) == |Utf8(c)|
  {
    if 0x2000 <= c <= 0x200A {
      assert Utf8(c) == [0xE2, 0x80, (0x80 + c % 0x40) as byte];
    }
  }

  lemma {:induction false} BlankText(m: seq<byte>) returns (text: seq<Character>)
    requires Blank(m)
    ensures AllSpaces(text) && m == Encoded(text)
  {
    if m == [] {
      text := [];
    } else {
      var c := OpeningSpace(m);
      var rest := BlankText(m[SpaceLength(m)..]);
      text := [c] + rest;
    }
  }

  lemma {:induction false} SpacesAreBlank(text: seq<Character>)
    requires AllSpaces(text)
    ensures Blank(Encoded(text))
  {
    if text == [] {
    } else {
      var rest := Encoded(text[1..]);
      SpaceOpens(text[0], rest);
      SpacesAreBlank(text[1..]);
      assert (Utf8(text[0]) + rest)[|Utf8(text[0])|..] == rest;
    }
  }

  /** A manifest is blank exactly when it is made of white space characters and nothing else. */
  lemma BlankMeansSpaces(m: seq<byte>)
    ensures Blank(m) <==> exists text: seq<Character> :: AllSpaces(text) && m == Encoded(text)
  {
    if Blank(m) {
      var text := BlankText(m);
    }
    if text: seq<Character> :| AllSpaces(text) && m == Encoded(text) {
      SpacesAreBlank(text);
    }
  }

  /** The printed characters of ASCII. */
  predicate Visible(b: byte) {
    0x21 <= b <= 0x7E
  }

  /** Anything visible, anywhere, and the manifest is not blank. */
  lemma {:induction false} VisibleIsNotBlank(m: seq<byte>, i: nat)
    requires i < |m| && Visible(m[i])
    ensures !Blank(m)
  {
    var n := SpaceLength(m);
    if n > 0 {
      assert i >= n;
      VisibleIsNotBlank(m[n..], i - n);
    }
  }

  lemma {:induction false} AsciiSpacesAreBlank(m: seq<byte>)
    requires forall i :: 0 <= i < |m| ==> 9 <= m[i] <= 13 || m[i] == 32
    ensures Blank(m)
  {
    if m == [] {
    } else {
      AsciiSpacesAreBlank(m[1..]);
    }
  }

  /** Any one octet may change: if something visible is there before or after, the digests differ. */
  lemma VisibleChangeDetected(before: seq<byte>, b: byte, c: byte, after: seq<byte>)
    requires b != c
    requires exists x :: x in before + [b, c] + after && Visible(x)
    ensures Digest(before + [b] + after) != Digest(before + [c] + after)
  {
    ChangeDetected(before, b, c, after);
    var x :| x in before + [b, c] + after && Visible(x);
    if x != c {
      assert x in before + [b] + after;
      var i :| 0 <= i < |before + [b] + after| && (before + [b] + after)[i] == x;
      VisibleIsNotBlank(before + [b] + after, i);
    } else {
      assert (before + [c] + after)[|before|] == x;
      VisibleIsNotBlank(before + [c] + after, |before|);
    }
  }
}
