/** UTF-8 (sections 3 and 4 of RFC 3629). */
module Utf8 {
  // Encoding of characters, well-formed byte strings, and the lenient decoding that puts one U+FFFD in place of every
  // ill-formed subpart. Quoted paths, captured output and metadata texts are all decoded this way.

  type Byte = b: int | 0 <= b < 256

  predicate Continuation(b: Byte) {
    0x80 <= b < 0xC0
  }

  function Encode(c: char): (r: seq<Byte>)
    ensures 1 <= |r| <= 4
  {
    var n := c as int;
    if n < 0x80 then [n]
    else if n < 0x800 then [0xC0 + n / 64, 0x80 + n % 64]
    else if n < 0x10000 then [0xE0 + n / 4096, 0x80 + n / 64 % 64, 0x80 + n % 64]
    else [0xF0 + n / 262144, 0x80 + n / 4096 % 64, 0x80 + n / 64 % 64, 0x80 + n % 64]
  }

  function EncodeAll(s: string): seq<Byte> {
    if s == [] then [] else Encode(s[0]) + EncodeAll(s[1..])
  }

  /** The second byte a lead byte admits: no overlong forms, no surrogates, nothing above U+10FFFF. */
  predicate SecondByte(lead: Byte, b: Byte) {
    if lead == 0xE0 then 0xA0 <= b < 0xC0
    else if lead == 0xED then 0x80 <= b < 0xA0
    else if lead == 0xF0 then 0x90 <= b < 0xC0
    else if lead == 0xF4 then 0x80 <= b < 0x90
    else Continuation(b)
  }

  /** Bytes a sequence with this lead byte has; none for a byte that leads no sequence. */
  function SequenceLength(lead: Byte): nat {
    if lead < 0x80 then 1
    else if 0xC2 <= lead < 0xE0 then 2
    else if 0xE0 <= lead < 0xF0 then 3
    else if 0xF0 <= lead < 0xF5 then 4
    else 0
  }

  predicate WellFormedHead(bs: seq<Byte>)
    requires bs != []
  {
    var n := SequenceLength(bs[0]);
    && 1 <= n <= |bs|
    && (n >= 2 ==> SecondByte(bs[0], bs[1]))
    && (n >= 3 ==> Continuation(bs[2]))
    && (n >= 4 ==> Continuation(bs[3]))
  }

  /** The payload bits of a lead byte and of the continuation bytes, most significant first. */
  function Assemble(a: int, b: int, c: int, d: int): int {
    a * 262144 + b * 4096 + c * 64 + d
  }

  function Head(bs: seq<Byte>): char
    requires bs != [] && WellFormedHead(bs)
  {
    var n := SequenceLength(bs[0]);
    if n == 1 then bs[0] as char
    else if n == 2 then Assemble(0, 0, bs[0] - 0xC0, bs[1] - 0x80) as char
    else if n == 3 then Assemble(0, bs[0] - 0xE0, bs[1] - 0x80, bs[2] - 0x80) as char
    else Assemble(bs[0] - 0xF0, bs[1] - 0x80, bs[2] - 0x80, bs[3] - 0x80) as char
  }

  predicate WellFormed(bs: seq<Byte>)
    decreases |bs|
  {
    bs == [] || (WellFormedHead(bs) && WellFormed(bs[SequenceLength(bs[0])..]))
  }

  /** Length of the ill-formed subpart at the head. */
  function IllFormedLength(bs: seq<Byte>): (r: nat)
    requires bs != []
    ensures 1 <= r <= |bs|
  {
    var n := SequenceLength(bs[0]);
    if n <= 2 || |bs| < 2 || !SecondByte(bs[0], bs[1]) then 1
    else if n == 3 || |bs| < 3 || !Continuation(bs[2]) then 2
    else 3
  }

  function Decode(bs: seq<Byte>): string
    decreases |bs|
  {
    if bs == [] then []
    else if WellFormedHead(bs) then [Head(bs)] + Decode(bs[SequenceLength(bs[0])..])
    else ['\U{FFFD}'] + Decode(bs[IllFormedLength(bs)..])
  }

  ghost predicate Encodes(bs: seq<Byte>, c: char) {
    bs != [] && WellFormedHead(bs) && SequenceLength(bs[0]) == |bs| && Head(bs) == c
  }

  lemma Reassemble(n: nat)
    ensures Assemble(n / 262144, n / 4096 % 64, n / 64 % 64, n % 64) == n
    ensures n < 262144 ==> n / 4096 % 64 == n / 4096
    ensures n < 4096 ==> n / 64 % 64 == n / 64 && n / 4096 == 0
  {
    var q := n / 64;
    var r := q / 64;
    assert n / 4096 == r && n / 262144 == r / 64;
    assert n == 64 * q + n % 64 && q == 64 * r + q % 64 && r == 64 * (r / 64) + r % 64;
  }

  lemma EncodesShort(c: char)
    requires c as int < 0x10000
    ensures Encodes(Encode(c), c)
  {
    Reassemble(c as int);
  }

  lemma EncodesLong(c: char)
    requires c as int >= 0x10000
    ensures Encodes(Encode(c), c)
  {
    Reassemble(c as int);
  }

  lemma EncodedHead(c: char, rest: seq<Byte>)
    ensures var bs := Encode(c) + rest;
            WellFormedHead(bs) && SequenceLength(bs[0]) == |Encode(c)| && Head(bs) == c
  {
    if c as int < 0x10000 { EncodesShort(c); } else { EncodesLong(c); }
    HeadOfPrefix(Encode(c), rest, c);
  }

  lemma HeadOfPrefix(bs: seq<Byte>, rest: seq<Byte>, c: char)
    requires Encodes(bs, c)
    ensures WellFormedHead(bs + rest) && SequenceLength((bs + rest)[0]) == |bs| && Head(bs + rest) == c
  {
  }

  /** Decoding undoes encoding, for every text. */
  lemma {:induction false} DecodeEncoded(s: string)
    ensures WellFormed(EncodeAll(s)) && Decode(EncodeAll(s)) == s
  {
    if s != [] {
      var rest := EncodeAll(s[1..]);
      var bs := Encode(s[0]) + rest;
      EncodedHead(s[0], rest);
      DecodeEncoded(s[1..]);
      assert bs[|Encode(s[0])|..] == rest;
      assert s == [s[0]] + s[1..];
    }
  }

  lemma Disassemble(a: int, b: int, c: int, d: int)
    requires 0 <= a && 0 <= b < 64 && 0 <= c < 64 && 0 <= d < 64
    ensures var n := Assemble(a, b, c, d); n / 262144 == a && n / 4096 % 64 == b && n / 64 % 64 == c && n % 64 == d
    ensures a == 0 ==> Assemble(a, b, c, d) / 4096 == b
    ensures a == 0 && b == 0 ==> Assemble(a, b, c, d) / 64 == c
  {
    var n, q, r := Assemble(a, b, c, d), a * 4096 + b * 64 + c, a * 64 + b;
    assert n == 64 * q + d && q == 64 * r + c;
    assert n / 64 == q && n / 4096 == q / 64 == r && n / 262144 == r / 64 == a;
  }

  lemma EncodeHead(bs: seq<Byte>)
    requires bs != [] && WellFormedHead(bs)
    ensures Encode(Head(bs)) == bs[..SequenceLength(bs[0])]
  {
    var n := SequenceLength(bs[0]);
    if n == 2 {
      Disassemble(0, 0, bs[0] - 0xC0, bs[1] - 0x80);
    } else if n == 3 {
      Disassemble(0, bs[0] - 0xE0, bs[1] - 0x80, bs[2] - 0x80);
    } else if n == 4 {
      Disassemble(bs[0] - 0xF0, bs[1] - 0x80, bs[2] - 0x80, bs[3] - 0x80);
    }
  }

  lemma DecodeStep(bs: seq<Byte>)
    requires bs != [] && WellFormedHead(bs)
    ensures Decode(bs) == [Head(bs)] + Decode(bs[SequenceLength(bs[0])..])
  {
  }

  lemma EncodeAllStep(c: char, s: string)
    ensures EncodeAll([c] + s) == Encode(c) + EncodeAll(s)
  {
    assert ([c] + s)[1..] == s;
  }

  lemma HeadAndRest(bs: seq<Byte>)
    requires bs != [] && WellFormedHead(bs)
    ensures Encode(Head(bs)) + bs[SequenceLength(bs[0])..] == bs
  {
    EncodeHead(bs);
  }

  /** The well-formed byte strings are exactly the encodings of texts. */
  lemma {:induction false} WellFormedIsEncoded(bs: seq<Byte>)
    requires WellFormed(bs)
    ensures EncodeAll(Decode(bs)) == bs
    decreases |bs|
  {
    if bs != [] {
      var rest := bs[SequenceLength(bs[0])..];
      WellFormedIsEncoded(rest);
      DecodeStep(bs);
      EncodeAllStep(Head(bs), Decode(rest));
      HeadAndRest(bs);
    }
  }
}
