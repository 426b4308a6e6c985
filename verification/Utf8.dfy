/** UTF-8 (compare section 3 of RFC 3629): the octets of a text, and the text of octets. */
module Utf8 {
  import opened Options

  type Octet = o: int | 0 <= o < 256

  function EncodeChar(c: char): (bs: seq<Octet>)
    ensures bs != []
  {
    var n := c as int;
    var high := n / 0x40;
    var higher := high / 0x40;
    if n < 0x80 then [n]
    else if n < 0x800 then [0xC0 + high, 0x80 + n % 0x40]
    else if n < 0x10000 then [0xE0 + higher, 0x80 + high % 0x40, 0x80 + n % 0x40]
    else [0xF0 + higher / 0x40, 0x80 + higher % 0x40, 0x80 + high % 0x40, 0x80 + n % 0x40]
  }

  function Encode(s: string): seq<Octet> {
    if s == "" then [] else EncodeChar(s[0]) + Encode(s[1..])
  }

  /** How many octets the first one announces; 0 if it cannot be a first one. */
  function Announced(b: Octet): nat {
    if b < 0x80 then 1 else if b < 0xC0 then 0 else if b < 0xE0 then 2 else if b < 0xF0 then 3 else if b < 0xF8 then 4 else 0
  }

  /** The number with six more bits, or -1 if the octet does not continue a character. */
  function More(n: int, b: Octet): int {
    if n >= 0 && 0x80 <= b < 0xC0 then n * 0x40 + (b as int - 0x80) else -1
  }

  /** The number that the octets of one character spell, or -1. */
  function Spelled(bs: seq<Octet>): int
    requires bs != []
  {
    var b0: int := bs[0];
    if |bs| == 1 then b0
    else if |bs| == 2 then More(b0 - 0xC0, bs[1])
    else if |bs| == 3 then More(More(b0 - 0xE0, bs[1]), bs[2])
    else if |bs| == 4 then More(More(More(b0 - 0xF0, bs[1]), bs[2]), bs[3])
    else -1
  }

  /** The least number that needs so many octets. */
  function Least(length: nat): int {
    if length <= 1 then 0 else if length == 2 then 0x80 else if length == 3 then 0x800 else 0x10000
  }

  predicate IsScalar(n: int) {
    0 <= n < 0xD800 || 0xE000 <= n < 0x11_0000
  }

  /** Nothing for octets that are no text, or that spell a character at more length than needed. */
  function Decode(bs: seq<Octet>): Option<string> {
    if bs == [] then Some("") else
      var k := Announced(bs[0]);
      if k == 0 || k > |bs| then None else
        var n := Spelled(bs[..k]);
        if n < Least(k) || !IsScalar(n) then None else
          match Decode(bs[k..])
          case None => None
          case Some(s) => Some([n as char] + s)
  }

  lemma CharThere(c: char)
    ensures var bs := EncodeChar(c);
            |bs| == Announced(bs[0]) && Spelled(bs) == c as int && c as int >= Least(|bs|) && IsScalar(c as int)
  {
  }

  lemma SixBits(n: int, b: Octet)
    requires n >= 0 && 0x80 <= b < 0xC0
    ensures More(n, b) / 0x40 == n && More(n, b) % 0x40 == b as int - 0x80
  {
  }

  lemma CharBack(bs: seq<Octet>)
    requires bs != [] && |bs| == Announced(bs[0]) && Spelled(bs) >= Least(|bs|) && IsScalar(Spelled(bs))
    ensures EncodeChar(Spelled(bs) as char) == bs
  {
    var k := |bs|;
    if k == 1 {
      assert bs == [bs[0]];
    } else {
      assert k == 2 || k == 3 || k == 4;
      var n1 := bs[0] as int - if k == 2 then 0xC0 else if k == 3 then 0xE0 else 0xF0;
      var n2 := More(n1, bs[1]);
      if k == 2 {
        CharBack2(n1, n2, bs);
      } else {
        var n3 := More(n2, bs[2]);
        if k == 3 { CharBack3(n1, n2, n3, bs); } else { CharBack4(n1, n2, n3, More(n3, bs[3]), bs); }
      }
    }
  }

  lemma CharBack2(n1: int, n2: int, bs: seq<Octet>)
    requires |bs| == 2 && n1 == bs[0] as int - 0xC0 && n1 >= 0 && n2 == More(n1, bs[1]) && 0x80 <= n2 < 0x800
    ensures EncodeChar(n2 as char) == bs
  {
    SixBits(n1, bs[1]);
  }

  lemma CharBack3(n1: int, n2: int, n3: int, bs: seq<Octet>)
    requires |bs| == 3 && n1 == bs[0] as int - 0xE0 && n1 >= 0 && n2 == More(n1, bs[1]) && n3 == More(n2, bs[2])
    requires 0x800 <= n3 < 0x10000 && IsScalar(n3)
    ensures EncodeChar(n3 as char) == bs
  {
    SixBits(n1, bs[1]);
    SixBits(n2, bs[2]);
    hide More;
  }

  lemma CharBack4(n1: int, n2: int, n3: int, n4: int, bs: seq<Octet>)
    requires |bs| == 4 && n1 == bs[0] as int - 0xF0 && n1 >= 0 && n2 == More(n1, bs[1]) && n3 == More(n2, bs[2]) && n4 == More(n3, bs[3])
    requires 0x10000 <= n4 && IsScalar(n4)
    ensures EncodeChar(n4 as char) == bs
  {
    SixBits(n1, bs[1]);
    SixBits(n2, bs[2]);
    SixBits(n3, bs[3]);
    hide More;
  }

  lemma {:induction false} DecodeEncode(s: string)
    ensures Decode(Encode(s)) == Some(s)
  {
    hide EncodeChar, Announced, Spelled, Least, IsScalar;
    if s != "" {
      DecodeEncode(s[1..]);
      CharThere(s[0]);
      var first, rest := EncodeChar(s[0]), Encode(s[1..]);
      assert (first + rest)[..|first|] == first && (first + rest)[|first|..] == rest;
      assert [s[0]] + s[1..] == s;
    }
  }

  lemma {:induction false} EncodeDecode(bs: seq<Octet>)
    requires Decode(bs).Some?
    ensures Encode(Decode(bs).value) == bs
  {
    hide EncodeChar, Announced, Spelled, Least, IsScalar;
    if bs != [] {
      var k := Announced(bs[0]);
      EncodeDecode(bs[k..]);
      CharBack(bs[..k]);
      var s := Decode(bs).value;
      assert s[1..] == Decode(bs[k..]).value;
      assert bs[..k] + bs[k..] == bs;
    }
  }

  /** The encoding is the only octets that decode to the text. */
  lemma DecodesTo(bs: seq<Octet>, s: string)
    ensures Decode(bs) == Some(s) <==> bs == Encode(s)
  {
    hide Decode, Encode;
    DecodeEncode(s);
    if Decode(bs).Some? { EncodeDecode(bs); }
  }

  lemma {:induction false} EncodeJoin(a: string, b: string)
    ensures Encode(a + b) == Encode(a) + Encode(b)
  {
    hide EncodeChar;
    if a == "" {
      assert a + b == b;
    } else {
      assert (a + b)[0] == a[0] && (a + b)[1..] == a[1..] + b;
      EncodeJoin(a[1..], b);
    }
  }
}
