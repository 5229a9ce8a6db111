/** The base64 encoding of section 4 of RFC 4648: the 64-character alphabet
    `A-Z a-z 0-9 + /`, three bytes to four characters, and `=` padding of
    the last group. It is what Node's `Buffer.toString("base64")` and the
    browser's `btoa` produce. Decoding here accepts exactly the canonical
    encodings: padded, with the unused bits of the last group zero. */
module Base64 {
  import opened Options

  type byte = x: int | 0 <= x < 256
  type sextet = x: int | 0 <= x < 64

  const Pad: char := '='

  /** The alphabet of Table 1 of RFC 4648. */
  function CharOf(i: sextet): (c: char)
    ensures c != Pad
  {
    if i < 26 then (('A' as int) + i) as char
    else if i < 52 then (('a' as int) + (i - 26)) as char
    else if i < 62 then (('0' as int) + (i - 52)) as char
    else if i == 62 then '+'
    else '/'
  }

  /** The value of an alphabet character, or None for any other character. */
  function IndexOf(c: char): (r: Option<sextet>)
    ensures r.Some? ==> CharOf(r.value) == c
    ensures r.None? ==> forall i: sextet :: CharOf(i) != c
  {
    if 'A' <= c <= 'Z' then Some((c as int) - ('A' as int))
    else if 'a' <= c <= 'z' then Some((c as int) - ('a' as int) + 26)
    else if '0' <= c <= '9' then Some((c as int) - ('0' as int) + 52)
    else if c == '+' then Some(62)
    else if c == '/' then Some(63)
    else None
  }

  lemma IndexOfCharOf(i: sextet)
    ensures IndexOf(CharOf(i)) == Some(i)
  {
  }

  // The four 6-bit groups of a 24-bit block b0 b1 b2, most significant first.
  function SextetA(b0: byte): sextet { b0 / 4 }
  function SextetB(b0: byte, b1: byte): sextet { (b0 % 4) * 16 + b1 / 16 }
  function SextetC(b1: byte, b2: byte): sextet { (b1 % 16) * 4 + b2 / 64 }
  function SextetD(b2: byte): sextet { b2 % 64 }

  // The three bytes of a 24-bit block i0 i1 i2 i3 of 6-bit groups.
  function ByteA(i0: sextet, i1: sextet): byte { i0 * 4 + i1 / 16 }
  function ByteB(i1: sextet, i2: sextet): byte { (i1 % 16) * 16 + i2 / 4 }
  function ByteC(i2: sextet, i3: sextet): byte { (i2 % 4) * 64 + i3 }

  lemma SplitJoin(b0: byte, b1: byte, b2: byte)
    ensures ByteA(SextetA(b0), SextetB(b0, b1)) == b0
    ensures ByteB(SextetB(b0, b1), SextetC(b1, b2)) == b1
    ensures ByteC(SextetC(b1, b2), SextetD(b2)) == b2
  {
  }

  /** The bits that padding leaves unused are zero in an encoding. */
  lemma PadBits(b0: byte, b1: byte)
    ensures SextetB(b0, 0) % 16 == 0 && ByteA(SextetA(b0), SextetB(b0, 0)) == b0
    ensures SextetC(b1, 0) % 4 == 0
  {
  }

  lemma JoinSplit(i0: sextet, i1: sextet, i2: sextet, i3: sextet)
    ensures SextetA(ByteA(i0, i1)) == i0
    ensures SextetB(ByteA(i0, i1), ByteB(i1, i2)) == i1
    ensures SextetC(ByteB(i1, i2), ByteC(i2, i3)) == i2
    ensures SextetD(ByteC(i2, i3)) == i3
  {
  }

  /** The four characters for three bytes. */
  function EncodeTriple(b0: byte, b1: byte, b2: byte): string {
    [CharOf(SextetA(b0)), CharOf(SextetB(b0, b1)), CharOf(SextetC(b1, b2)), CharOf(SextetD(b2))]
  }

  /** The padded group for the last one or two bytes. */
  function EncodeTail(b: seq<byte>): string
    requires 1 <= |b| <= 2
  {
    if |b| == 1 then [CharOf(SextetA(b[0])), CharOf(SextetB(b[0], 0)), Pad, Pad]
    else [CharOf(SextetA(b[0])), CharOf(SextetB(b[0], b[1])), CharOf(SextetC(b[1], 0)), Pad]
  }

  function Encode(b: seq<byte>): (s: string)
    ensures |s| == 4 * ((|b| + 2) / 3)
    decreases |b|
  {
    if |b| == 0 then []
    else if |b| <= 2 then EncodeTail(b)
    else EncodeTriple(b[0], b[1], b[2]) + Encode(b[3..])
  }

  /** Three bytes from a group of four alphabet characters. */
  function DecodeQuad(q: string): Option<seq<byte>>
    requires |q| == 4
  {
    match (IndexOf(q[0]), IndexOf(q[1]), IndexOf(q[2]), IndexOf(q[3]))
    case (Some(i0), Some(i1), Some(i2), Some(i3)) =>
      Some([ByteA(i0, i1), ByteB(i1, i2), ByteC(i2, i3)])
    case _ => None
  }

  /** The last group: four alphabet characters, or two or three followed by
      padding whose unused bits are zero. */
  function DecodeLast(q: string): Option<seq<byte>>
    requires |q| == 4
  {
    if q[2] == Pad && q[3] == Pad then
      match (IndexOf(q[0]), IndexOf(q[1]))
      case (Some(i0), Some(i1)) =>
        if i1 % 16 == 0 then Some([ByteA(i0, i1)]) else None
      case _ => None
    else if q[3] == Pad then
      match (IndexOf(q[0]), IndexOf(q[1]), IndexOf(q[2]))
      case (Some(i0), Some(i1), Some(i2)) =>
        if i2 % 4 == 0 then Some([ByteA(i0, i1), ByteB(i1, i2)]) else None
      case _ => None
    else DecodeQuad(q)
  }

  function Decode(s: string): Option<seq<byte>>
    decreases |s|
  {
    if |s| == 0 then Some([])
    else if |s| < 4 then None
    else if |s| == 4 then DecodeLast(s)
    else
      match (DecodeQuad(s[..4]), Decode(s[4..]))
      case (Some(head), Some(rest)) => Some(head + rest)
      case _ => None
  }

  lemma DecodeTriple(b0: byte, b1: byte, b2: byte)
    ensures DecodeQuad(EncodeTriple(b0, b1, b2)) == Some([b0, b1, b2])
    ensures DecodeLast(EncodeTriple(b0, b1, b2)) == Some([b0, b1, b2])
  {
    IndexOfCharOf(SextetA(b0));
    IndexOfCharOf(SextetB(b0, b1));
    IndexOfCharOf(SextetC(b1, b2));
    IndexOfCharOf(SextetD(b2));
    SplitJoin(b0, b1, b2);
  }

  lemma DecodeTailOne(b0: byte)
    ensures DecodeLast(EncodeTail([b0])) == Some([b0])
  {
    var i0, i1 := SextetA(b0), SextetB(b0, 0);
    var q := EncodeTail([b0]);
    assert q == [CharOf(i0), CharOf(i1), Pad, Pad];
    IndexOfCharOf(i0);
    IndexOfCharOf(i1);
    PadBits(b0, 0);
  }

  lemma DecodeTailTwo(b0: byte, b1: byte)
    ensures DecodeLast(EncodeTail([b0, b1])) == Some([b0, b1])
  {
    var i0, i1, i2 := SextetA(b0), SextetB(b0, b1), SextetC(b1, 0);
    var q := EncodeTail([b0, b1]);
    assert q == [CharOf(i0), CharOf(i1), CharOf(i2), Pad];
    IndexOfCharOf(i0);
    IndexOfCharOf(i1);
    IndexOfCharOf(i2);
    SplitJoin(b0, b1, 0);
    PadBits(b0, b1);
  }

  /** A full group in front of a decodable string decodes group by group. */
  lemma {:induction false} DecodeCons(head: string, rest: string, x: seq<byte>, y: seq<byte>)
    requires |head| == 4 && |rest| > 0 && DecodeQuad(head) == Some(x) && Decode(rest) == Some(y)
    ensures Decode(head + rest) == Some(x + y)
  {
    assert (head + rest)[..4] == head && (head + rest)[4..] == rest;
  }

  /** The round trip for one or two bytes, or for exactly one full group. */
  lemma {:induction false} DecodeEncodeShort(b: seq<byte>)
    requires 1 <= |b| <= 3
    ensures Decode(Encode(b)) == Some(b)
  {
    if |b| == 1 {
      assert b == [b[0]] && Encode(b) == EncodeTail(b);
      DecodeTailOne(b[0]);
    } else if |b| == 2 {
      assert b == [b[0], b[1]] && Encode(b) == EncodeTail(b);
      DecodeTailTwo(b[0], b[1]);
    } else {
      assert b == [b[0], b[1], b[2]] && b[3..] == [];
      assert Encode(b) == EncodeTriple(b[0], b[1], b[2]);
      DecodeTriple(b[0], b[1], b[2]);
    }
  }

  /** More than three bytes encode as a full group followed by the rest. */
  lemma {:induction false} EncodeCons(b: seq<byte>)
    requires |b| > 3
    ensures Encode(b) == EncodeTriple(b[0], b[1], b[2]) + Encode(b[3..])
  {
  }

  /** A non-empty byte sequence encodes to at least one group. */
  lemma EncodeNonEmpty(b: seq<byte>)
    requires |b| > 0
    ensures |Encode(b)| >= 4
  {
    assert (|b| + 2) / 3 >= 1;
  }

  lemma HeadDecodes(b: seq<byte>)
    requires |b| >= 3
    ensures DecodeQuad(EncodeTriple(b[0], b[1], b[2])) == Some(b[..3])
  {
    DecodeTriple(b[0], b[1], b[2]);
    assert [b[0], b[1], b[2]] == b[..3];
  }

  /** A full first group in front of a tail that round-trips. */
  lemma {:induction false} DecodeEncodeStep(b: seq<byte>)
    requires |b| > 3 && Decode(Encode(b[3..])) == Some(b[3..])
    ensures Decode(EncodeTriple(b[0], b[1], b[2]) + Encode(b[3..])) == Some(b)
  {
    HeadDecodes(b);
    EncodeNonEmpty(b[3..]);
    DecodeCons(EncodeTriple(b[0], b[1], b[2]), Encode(b[3..]), b[..3], b[3..]);
    assert b[..3] + b[3..] == b;
  }

  /** Decoding an encoding gives back the bytes. */
  lemma {:induction false} DecodeEncode(b: seq<byte>)
    ensures Decode(Encode(b)) == Some(b)
    decreases |b|
  {
    if |b| == 0 {
    } else if |b| <= 3 {
      DecodeEncodeShort(b);
    } else {
      DecodeEncode(b[3..]);
      DecodeEncodeStep(b);
      EncodeCons(b);
    }
  }

  lemma {:induction false} EncodeQuad(q: string, h: seq<byte>)
    requires |q| == 4 && DecodeQuad(q) == Some(h)
    ensures |h| == 3 && EncodeTriple(h[0], h[1], h[2]) == q
  {
    var i0, i1, i2, i3 := IndexOf(q[0]).value, IndexOf(q[1]).value, IndexOf(q[2]).value, IndexOf(q[3]).value;
    JoinSplit(i0, i1, i2, i3);
  }

  /** The groups of a block whose third and fourth groups are padding. */
  lemma PadJoinOne(i0: sextet, i1: sextet)
    requires i1 % 16 == 0
    ensures SextetA(ByteA(i0, i1)) == i0 && SextetB(ByteA(i0, i1), 0) == i1
  {
    var k := i1 / 16;
    assert i1 == 16 * k && 0 <= k < 4;
    assert ByteA(i0, i1) == 4 * i0 + k;
    assert (4 * i0 + k) / 4 == i0 && (4 * i0 + k) % 4 == k;
  }

  /** The groups of a block whose fourth group is padding. */
  lemma PadJoinTwo(i0: sextet, i1: sextet, i2: sextet)
    requires i2 % 4 == 0
    ensures SextetA(ByteA(i0, i1)) == i0 && SextetB(ByteA(i0, i1), ByteB(i1, i2)) == i1
    ensures SextetC(ByteB(i1, i2), 0) == i2
  {
    JoinSplit(i0, i1, i2, 0);
    var k := i2 / 4;
    assert i2 == 4 * k && 0 <= k < 16;
    assert ByteB(i1, i2) == 16 * (i1 % 16) + k;
    assert (16 * (i1 % 16) + k) % 16 == k;
  }

  lemma {:induction false} EncodeLastOne(q: string, h: seq<byte>)
    requires |q| == 4 && q[2] == Pad && q[3] == Pad && DecodeLast(q) == Some(h)
    ensures |h| == 1 && Encode(h) == q
  {
    var i0, i1 := IndexOf(q[0]).value, IndexOf(q[1]).value;
    assert i1 % 16 == 0 && h == [ByteA(i0, i1)];
    PadJoinOne(i0, i1);
    assert CharOf(i0) == q[0] && CharOf(i1) == q[1];
    assert Encode(h) == [CharOf(i0), CharOf(i1), Pad, Pad];
  }

  lemma {:induction false} EncodeLastTwo(q: string, h: seq<byte>)
    requires |q| == 4 && q[2] != Pad && q[3] == Pad && DecodeLast(q) == Some(h)
    ensures |h| == 2 && Encode(h) == q
  {
    var i0, i1, i2 := IndexOf(q[0]).value, IndexOf(q[1]).value, IndexOf(q[2]).value;
    assert i2 % 4 == 0 && h == [ByteA(i0, i1), ByteB(i1, i2)];
    PadJoinTwo(i0, i1, i2);
    assert CharOf(i0) == q[0] && CharOf(i1) == q[1] && CharOf(i2) == q[2];
    assert Encode(h) == [CharOf(i0), CharOf(i1), CharOf(i2), Pad];
  }

  lemma {:induction false} EncodeLast(q: string, h: seq<byte>)
    requires |q| == 4 && DecodeLast(q) == Some(h)
    ensures 1 <= |h| <= 3 && Encode(h) == q
  {
    if q[2] == Pad && q[3] == Pad {
      EncodeLastOne(q, h);
    } else if q[3] == Pad {
      EncodeLastTwo(q, h);
    } else {
      EncodeQuad(q, h);
      assert h[3..] == [];
      assert Encode(h) == EncodeTriple(h[0], h[1], h[2]);
    }
  }

  /** Every string that decodes is the encoding of what it decodes to, so
      each byte sequence has exactly one accepted spelling. */
  lemma {:induction false} EncodeDecode(s: string, b: seq<byte>)
    requires Decode(s) == Some(b)
    ensures Encode(b) == s
    decreases |s|
  {
    if |s| == 0 {
    } else if |s| == 4 {
      EncodeLast(s, b);
    } else {
      var head, rest := DecodeQuad(s[..4]).value, Decode(s[4..]).value;
      assert b == head + rest;
      EncodeQuad(s[..4], head);
      EncodeDecode(s[4..], rest);
      assert b[..3] == head && b[3..] == rest;
      assert Encode(b) == EncodeTriple(b[0], b[1], b[2]) + Encode(b[3..]);
      assert s == s[..4] + s[4..];
    }
  }

  // The browser's `btoa` and `atob` read and write "binary strings": each
  // character stands for one byte, so only characters up to U+00FF are allowed.

  predicate IsLatin1(s: string) {
    forall i :: 0 <= i < |s| ==> (s[i] as int) < 256
  }

  function Latin1Bytes(s: string): (b: seq<byte>)
    requires IsLatin1(s)
    ensures |b| == |s| && forall i :: 0 <= i < |s| ==> b[i] == s[i] as int
  {
    seq(|s|, i requires 0 <= i < |s| && IsLatin1(s) => s[i] as int)
  }

  function Latin1String(b: seq<byte>): (s: string)
    ensures |s| == |b| && IsLatin1(s) && forall i :: 0 <= i < |b| ==> s[i] as int == b[i]
  {
    seq(|b|, i requires 0 <= i < |b| => b[i] as char)
  }

  /** `btoa(s)`: the base64 encoding of the binary string `s`; it throws
      (here None) when some character is above U+00FF. */
  function Btoa(s: string): (r: Option<string>)
    ensures r.Some? <==> IsLatin1(s)
  {
    if IsLatin1(s) then Some(Encode(Latin1Bytes(s))) else None
  }

  /** `atob(e)`: the binary string `e` encodes; None where it would throw. */
  function Atob(e: string): Option<string> {
    match Decode(e)
    case Some(b) => Some(Latin1String(b))
    case None => None
  }

  /** `atob` undoes `btoa`, and a string that `atob` accepts is the `btoa`
      of what it returns: the stored form of a password and the password
      determine each other. */
  lemma AtobBtoa(p: string, e: string)
    ensures Btoa(p) == Some(e) <==> Atob(e) == Some(p)
  {
    if Btoa(p) == Some(e) {
      var b := Latin1Bytes(p);
      DecodeEncode(b);
      assert Latin1String(b) == p;
    }
    if Atob(e) == Some(p) {
      var b := Decode(e).value;
      EncodeDecode(e, b);
      assert Latin1Bytes(p) == b;
    }
  }
}
