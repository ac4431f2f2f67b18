/**
 Standard Base64 (section 4 of RFC 4648): the 64-character alphabet
 `A-Z a-z 0-9 + /`, with `=` padding of the last quantum. This is what the
 HMAC digest is rendered in (`CryptoJS.enc.Base64`) and what `btoa` produces
 for the HTTP Basic credentials. Decoding is the partner of encoding: it
 undoes it, so encoding is injective.
 */
module Base64 {
  import opened Js

  type Byte = b: int | 0 <= b < 256
  type Sextet = v: int | 0 <= v < 64

  const PAD: char := '='

  predicate IsAlphabetChar(c: char)
  {
    'A' <= c <= 'Z' || 'a' <= c <= 'z' || '0' <= c <= '9' || c == '+' || c == '/'
  }

  /** The character of the alphabet for a 6-bit value (table 1 of RFC 4648). */
  function CharOf(v: Sextet): (c: char)
    ensures IsAlphabetChar(c)
  {
    if v < 26 then ('A' as int + v) as char
    else if v < 52 then ('a' as int + (v - 26)) as char
    else if v < 62 then ('0' as int + (v - 52)) as char
    else if v == 62 then '+'
    else '/'
  }

  /** The 6-bit value of an alphabet character. */
  function ValueOf(c: char): (v: Sextet)
    requires IsAlphabetChar(c)
    ensures CharOf(v) == c
  {
    if 'A' <= c <= 'Z' then c as int - 'A' as int
    else if 'a' <= c <= 'z' then c as int - 'a' as int + 26
    else if '0' <= c <= '9' then c as int - '0' as int + 52
    else if c == '+' then 62
    else 63
  }

  lemma ValueOfCharOf(v: Sextet)
    ensures ValueOf(CharOf(v)) == v
  {
  }

  /** Encodes `b` three bytes at a time; a final group of one or two bytes
      is padded with `==` or `=`. */
  function Encode(b: seq<Byte>): (r: string)
    ensures |r| == 4 * ((|b| + 2) / 3)
    decreases |b|
  {
    if |b| == 0 then ""
    else if |b| == 1 then OneByteQuantum(b[0])
    else if |b| == 2 then TwoByteQuantum(b[0], b[1])
    else FullQuantum(b[0], b[1], b[2]) + Encode(b[3..])
  }

  /** A final group of one byte: two sextets and `==`. */
  function OneByteQuantum(b0: Byte): string
  {
    [CharOf(b0 / 4), CharOf((b0 % 4) * 16), PAD, PAD]
  }

  /** A final group of two bytes: three sextets and `=`. */
  function TwoByteQuantum(b0: Byte, b1: Byte): string
  {
    [CharOf(b0 / 4), CharOf((b0 % 4) * 16 + b1 / 16), CharOf((b1 % 16) * 4), PAD]
  }

  /** Three bytes as four sextets. */
  function FullQuantum(b0: Byte, b1: Byte, b2: Byte): string
  {
    [CharOf(b0 / 4), CharOf((b0 % 4) * 16 + b1 / 16), CharOf((b1 % 16) * 4 + b2 / 64), CharOf(b2 % 64)]
  }

  /** Decodes four characters at a time; `None` for text that is not a
      sequence of quanta over the alphabet with padding only at the end. */
  function Decode(s: string): Option<seq<Byte>>
    decreases |s|
  {
    if |s| == 0 then Some([])
    else if |s| < 4 then None
    else if |s| == 4 then DecodeLast(s)
    else
      match DecodeFull(s[..4])
      case None => None
      case Some(head) =>
        match Decode(s[4..])
        case None => None
        case Some(rest) => Some(head + rest)
  }

  /** Four alphabet characters as three bytes. */
  function DecodeFull(q: string): Option<seq<Byte>>
    requires |q| == 4
  {
    if IsAlphabetChar(q[0]) && IsAlphabetChar(q[1]) && IsAlphabetChar(q[2]) && IsAlphabetChar(q[3]) then
      Some([ValueOf(q[0]) * 4 + ValueOf(q[1]) / 16,
            (ValueOf(q[1]) % 16) * 16 + ValueOf(q[2]) / 4,
            (ValueOf(q[2]) % 4) * 64 + ValueOf(q[3])])
    else None
  }

  /** The final quantum, which may end in `==` (one byte) or `=` (two). */
  function DecodeLast(q: string): Option<seq<Byte>>
    requires |q| == 4
  {
    if !IsAlphabetChar(q[0]) || !IsAlphabetChar(q[1]) then None
    else if q[2] == PAD && q[3] == PAD then Some([ValueOf(q[0]) * 4 + ValueOf(q[1]) / 16])
    else if !IsAlphabetChar(q[2]) then None
    else if q[3] == PAD then
      Some([ValueOf(q[0]) * 4 + ValueOf(q[1]) / 16,
            (ValueOf(q[1]) % 16) * 16 + ValueOf(q[2]) / 4])
    else DecodeFull(q)
  }

  lemma SplitHigh16(a: int, x: int)
    requires 0 <= x < 16 && 0 <= a
    ensures (a * 16 + x) / 16 == a && (a * 16 + x) % 16 == x
  {
  }

  lemma SplitHigh4(a: int, x: int)
    requires 0 <= x < 4 && 0 <= a
    ensures (a * 4 + x) / 4 == a && (a * 4 + x) % 4 == x
  {
  }

  /** The bytes of one quantum survive the split into sextets. */
  lemma QuantumBytes(b0: Byte, b1: Byte, b2: Byte)
    ensures (b0 / 4) * 4 + ((b0 % 4) * 16 + b1 / 16) / 16 == b0
    ensures (((b0 % 4) * 16 + b1 / 16) % 16) * 16 + ((b1 % 16) * 4 + b2 / 64) / 4 == b1
    ensures (((b1 % 16) * 4 + b2 / 64) % 4) * 64 + b2 % 64 == b2
  {
    SplitHigh16(b0 % 4, b1 / 16);
    SplitHigh4(b1 % 16, b2 / 64);
  }

  /** A final quantum holding one byte decodes to that byte. */
  lemma DecodeOneByte(b0: Byte)
    ensures Decode(OneByteQuantum(b0)) == Some([b0])
  {
    ValueOfCharOf(b0 / 4);
    ValueOfCharOf((b0 % 4) * 16);
    SplitHigh16(b0 % 4, 0);
  }

  /** A final quantum holding two bytes decodes to those bytes. */
  lemma DecodeTwoBytes(b0: Byte, b1: Byte)
    ensures Decode(TwoByteQuantum(b0, b1)) == Some([b0, b1])
  {
    ValueOfCharOf(b0 / 4);
    ValueOfCharOf((b0 % 4) * 16 + b1 / 16);
    ValueOfCharOf((b1 % 16) * 4);
    QuantumBytes(b0, b1, 0);
  }

  /** Four sextets decode to the three bytes they were made from, both
      inside the text and at its end. */
  lemma DecodeThreeBytes(b0: Byte, b1: Byte, b2: Byte)
    ensures DecodeFull(FullQuantum(b0, b1, b2)) == Some([b0, b1, b2])
    ensures DecodeLast(FullQuantum(b0, b1, b2)) == Some([b0, b1, b2])
  {
    ValueOfCharOf(b0 / 4);
    ValueOfCharOf((b0 % 4) * 16 + b1 / 16);
    ValueOfCharOf((b1 % 16) * 4 + b2 / 64);
    ValueOfCharOf(b2 % 64);
    QuantumBytes(b0, b1, b2);
  }

  /** A full quantum followed by decodable text decodes to its three bytes
      followed by the rest. */
  lemma DecodeFullQuantum(b0: Byte, b1: Byte, b2: Byte, tail: string, rest: seq<Byte>)
    requires Decode(tail) == Some(rest)
    ensures Decode(FullQuantum(b0, b1, b2) + tail) == Some([b0, b1, b2] + rest)
  {
    var q := FullQuantum(b0, b1, b2);
    var s := q + tail;
    DecodeThreeBytes(b0, b1, b2);
    if tail == [] {
      assert s == q;
      assert |q| == 4;
      assert Decode(q) == DecodeLast(q);
      assert [b0, b1, b2] + rest == [b0, b1, b2];
    } else {
      assert s[4..] == tail;
      assert s[..4] == q;
    }
  }

  /** The first step of `Encode` on three or more bytes. */
  lemma EncodeStep(b: seq<Byte>)
    requires |b| >= 3
    ensures Encode(b) == FullQuantum(b[0], b[1], b[2]) + Encode(b[3..])
  {
  }

  lemma SplitThree(b: seq<Byte>)
    requires |b| >= 3
    ensures b == [b[0], b[1], b[2]] + b[3..]
  {
  }

  /** Decoding undoes encoding. */
  lemma {:induction false} DecodeEncode(b: seq<Byte>)
    ensures Decode(Encode(b)) == Some(b)
    decreases |b|
  {
    if |b| == 1 {
      DecodeOneByte(b[0]);
      assert b == [b[0]];
    } else if |b| == 2 {
      DecodeTwoBytes(b[0], b[1]);
      assert b == [b[0], b[1]];
    } else if |b| >= 3 {
      var tail := b[3..];
      DecodeEncode(tail);
      EncodeStep(b);
      SplitThree(b);
      DecodeFullQuantum(b[0], b[1], b[2], Encode(tail), tail);
    }
  }

  /** Distinct byte strings have distinct encodings. */
  lemma EncodeInjective(a: seq<Byte>, b: seq<Byte>)
    requires Encode(a) == Encode(b)
    ensures a == b
  {
    DecodeEncode(a);
    DecodeEncode(b);
  }

  /** The number of `=` characters that end the encoding of `n` bytes. */
  function PadCount(n: nat): nat
  {
    (3 - n % 3) % 3
  }

  /** `r` is alphabet characters followed by exactly `pads` characters `=`. */
  predicate WellPadded(r: string, pads: nat)
  {
    && pads <= |r|
    && (forall i :: 0 <= i < |r| - pads ==> IsAlphabetChar(r[i]))
    && (forall i :: |r| - pads <= i < |r| ==> r[i] == PAD)
  }

  /** Alphabet characters in front keep text well padded. */
  lemma WellPaddedAfterQuantum(q: string, rest: string, pads: nat)
    requires forall i :: 0 <= i < |q| ==> IsAlphabetChar(q[i])
    requires WellPadded(rest, pads)
    ensures WellPadded(q + rest, pads)
  {
    var r := q + rest;
    forall i | 0 <= i < |r| - pads
      ensures IsAlphabetChar(r[i])
    {
      if i < |q| {
        assert r[i] == q[i];
      } else {
        assert r[i] == rest[i - |q|];
      }
    }
    forall i | |r| - pads <= i < |r|
      ensures r[i] == PAD
    {
      assert r[i] == rest[i - |q|];
    }
  }

  /** Every character of an encoding is an alphabet character except the
      final padding, which is exactly `PadCount(|b|)` characters of `=`. */
  lemma {:induction false} EncodeShape(b: seq<Byte>)
    ensures WellPadded(Encode(b), PadCount(|b|))
    decreases |b|
  {
    if |b| == 1 {
      assert Encode(b) == OneByteQuantum(b[0]);
    } else if |b| == 2 {
      assert Encode(b) == TwoByteQuantum(b[0], b[1]);
    } else if |b| >= 3 {
      EncodeShape(b[3..]);
      EncodeStep(b);
      PadCountStep(|b|);
      WellPaddedAfterQuantum(FullQuantum(b[0], b[1], b[2]), Encode(b[3..]), PadCount(|b|));
    }
  }

  lemma PadCountStep(n: nat)
    requires n >= 3
    ensures PadCount(n) == PadCount(n - 3)
  {
  }

  /** The encoding of a 32-byte digest: 44 characters, the first 43 from the
      alphabet and exactly one `=` at the end. */
  lemma DigestShape(d: seq<Byte>)
    requires |d| == 32
    ensures |Encode(d)| == 44
    ensures Encode(d)[43] == PAD
    ensures forall i :: 0 <= i < 43 ==> IsAlphabetChar(Encode(d)[i])
  {
    EncodeShape(d);
    assert PadCount(|d|) == 1;
  }

  // ---------------------------------------------------------------------
  // `btoa`: Base64 of a string whose characters are all Latin-1

  predicate IsLatin1(s: string)
  {
    forall i :: 0 <= i < |s| ==> s[i] as int < 256
  }

  /** The bytes of a Latin-1 string, one per character. */
  function Latin1Bytes(s: string): (b: seq<Byte>)
    requires IsLatin1(s)
    ensures |b| == |s|
  {
    seq(|s|, i requires 0 <= i < |s| => s[i] as int)
  }

  /** `btoa(s)`, with `None` where it throws: a character beyond Latin-1. */
  function Btoa(s: string): (r: Option<string>)
    ensures r.Some? <==> IsLatin1(s)
    ensures r.Some? ==> Decode(r.value) == Some(Latin1Bytes(s))
  {
    if IsLatin1(s) then
      DecodeEncode(Latin1Bytes(s));
      Some(Encode(Latin1Bytes(s)))
    else None
  }
}
