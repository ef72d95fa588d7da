/** UTF-8 as section 3 of RFC 3629 defines it: shortest forms only, and no surrogates. */
module Utf8 {
  import opened Sums

  type Byte = b: int | 0 <= b < 256

  function EncodeChar(c: char): seq<Byte> {
    var n := c as int;
    if n < 0x80 then [n]
    else if n < 0x800 then [0xC0 + n / 64, 0x80 + n % 64]
    else if n < 0x1_0000 then [0xE0 + n / 4096, 0x80 + n / 64 % 64, 0x80 + n % 64]
    else [0xF0 + n / 262_144, 0x80 + n / 4096 % 64, 0x80 + n / 64 % 64, 0x80 + n % 64]
  }

  function Encode(s: string): seq<Byte> {
    if s == "" then [] else EncodeChar(s[0]) + Encode(s[1..])
  }

  predicate IsTail(b: Byte) {
    0x80 <= b < 0xC0
  }

  /** The length of the first character, if its bytes are well-formed. */
  function FirstLength(bytes: seq<Byte>): (r: Option<nat>)
    ensures r.Some? ==> 1 <= r.value <= |bytes|
  {
    if bytes == [] then None
    else if bytes[0] < 0x80 then Some(1)
    else if 0xC2 <= bytes[0] < 0xE0 && |bytes| >= 2 && IsTail(bytes[1]) then Some(2)
    else if 0xE0 <= bytes[0] < 0xF0 && |bytes| >= 3 && IsTail(bytes[1]) && IsTail(bytes[2])
            && IsScalar(Three(bytes)) && Three(bytes) >= 0x800 then Some(3)
    else if 0xF0 <= bytes[0] < 0xF5 && |bytes| >= 4 && IsTail(bytes[1]) && IsTail(bytes[2]) && IsTail(bytes[3])
            && 0x1_0000 <= Four(bytes) < 0x11_0000 then Some(4)
    else None
  }

  function Three(bytes: seq<Byte>): int
    requires |bytes| >= 3
  {
    (bytes[0] as int - 0xE0) * 4096 + (bytes[1] as int - 0x80) * 64 + (bytes[2] as int - 0x80)
  }

  function Four(bytes: seq<Byte>): int
    requires |bytes| >= 4
  {
    (bytes[0] as int - 0xF0) * 262_144 + (bytes[1] as int - 0x80) * 4096 + (bytes[2] as int - 0x80) * 64 + (bytes[3] as int - 0x80)
  }

  predicate IsScalar(n: int) {
    0 <= n < 0xD800 || 0xE000 <= n < 0x11_0000
  }

  function FirstChar(bytes: seq<Byte>): char
    requires FirstLength(bytes).Some?
  {
    match FirstLength(bytes).value
    case 1 => bytes[0] as char
    case 2 => ((bytes[0] as int - 0xC0) * 64 + (bytes[1] as int - 0x80)) as char
    case 3 => Three(bytes) as char
    case _ => Four(bytes) as char
  }

  /** The text of well-formed bytes. */
  function Decode(bytes: seq<Byte>): Option<string>
    decreases |bytes|
  {
    if bytes == [] then Some("")
    else if FirstLength(bytes).None? then None
    else match Decode(bytes[FirstLength(bytes).value..])
         case None => None
         case Some(rest) => Some([FirstChar(bytes)] + rest)
  }

  lemma EncodedChar(c: char, rest: seq<Byte>)
    ensures var bytes := EncodeChar(c) + rest;
            FirstLength(bytes) == Some(|EncodeChar(c)|) && FirstChar(bytes) == c
  {
    var n := c as int;
    assert n == n / 64 * 64 + n % 64;
    assert n / 64 == n / 4096 * 64 + n / 64 % 64;
    assert n / 4096 == n / 262_144 * 64 + n / 4096 % 64;
  }

  /** Decoding what was encoded gives it back. */
  lemma {:induction false} DecodeEncode(s: string)
    ensures Decode(Encode(s)) == Some(s)
  {
    if s != "" {
      DecodeEncode(s[1..]);
      EncodedChar(s[0], Encode(s[1..]));
      assert Encode(s)[|EncodeChar(s[0])|..] == Encode(s[1..]);
      assert s == [s[0]] + s[1..];
    }
  }

  lemma {:induction false} EncodeJoin(a: string, b: string)
    ensures Encode(a + b) == Encode(a) + Encode(b)
  {
    if a == "" {
      assert a + b == b;
    } else {
      hide EncodeChar;
      EncodeJoin(a[1..], b);
      assert (a + b)[1..] == a[1..] + b && (a + b)[0] == a[0];
    }
  }

  predicate IsAscii(s: string) {
    forall i :: 0 <= i < |s| ==> s[i] as int < 0x80
  }

  /** Plain characters are their own bytes. */
  lemma {:induction false} EncodeAscii(s: string)
    requires IsAscii(s)
    ensures |Encode(s)| == |s| && forall i :: 0 <= i < |s| ==> Encode(s)[i] == s[i] as int
  {
    if s != "" {
      EncodeAscii(s[1..]);
      assert Encode(s) == [s[0] as int] + Encode(s[1..]);
    }
  }

  /** A plain character occurs among the bytes only where it occurs in the text. */
  lemma {:induction false} PlainBytes(s: string, c: char)
    requires c as int < 0x80
    ensures (c as int) in Encode(s) <==> c in s
  {
    if s != "" {
      PlainBytes(s[1..], c);
      assert s == [s[0]] + s[1..];
      assert (c as int) in EncodeChar(s[0]) <==> c == s[0];
    }
  }
}
