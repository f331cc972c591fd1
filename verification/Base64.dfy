/**
 * The Base64 encoding of section 4 of RFC 4648, over byte strings, as used by
 * PHP's `base64_encode`: groups of three octets become four characters of the
 * 64-character alphabet, and a final group of one or two octets is completed
 * with `=` padding. Characters are represented by their ASCII codes, so the
 * encoding is itself a byte string.
 *
 * `Decode` is the strict inverse: it accepts exactly the canonical encodings
 * (no line breaks, padding only at the end, zero pad bits, as section 3.5 of RFC 4648
 * requires of canonical encodings).
 */
module Base64 {
  import opened Wrappers

  type byte = x: int | 0 <= x < 256
  type sextet = x: int | 0 <= x < 64

  /** ASCII '=' */
  const Pad: byte := 61

  /** Table 1 of RFC 4648: A-Z, a-z, 0-9, '+', '/'. */
  function Char(v: sextet): (c: byte)
    ensures c != Pad
    ensures Value(c) == Some(v)
  {
    if v < 26 then 65 + v          // 'A' .. 'Z'
    else if v < 52 then v + 71     // 'a' .. 'z'
    else if v < 62 then v - 4      // '0' .. '9'
    else if v == 62 then 43        // '+'
    else 47                        // '/'
  }

  /** The alphabet value of an ASCII code, if it belongs to the alphabet. */
  function Value(c: byte): Option<sextet>
  {
    if 65 <= c <= 90 then Some(c - 65)
    else if 97 <= c <= 122 then Some(c - 71)
    else if 48 <= c <= 57 then Some(c + 4)
    else if c == 43 then Some(62)
    else if c == 47 then Some(63)
    else None
  }

  /** `Value` and `Char` are mutually inverse on the alphabet. */
  lemma CharOfValue(c: byte)
    requires Value(c).Some?
    ensures Char(Value(c).value) == c
  {
  }

  predicate InAlphabet(c: byte)
  {
    Value(c).Some?
  }

  /** Four characters for one complete group of three octets. */
  function EncodeGroup(b0: byte, b1: byte, b2: byte): seq<byte>
  {
    [Char(b0 / 4), Char(b0 % 4 * 16 + b1 / 16), Char(b1 % 16 * 4 + b2 / 64), Char(b2 % 64)]
  }

  /** Base64 encoding of `b`, four output characters per started group of three octets. */
  function Encode(b: seq<byte>): (s: seq<byte>)
    ensures |s| == (|b| + 2) / 3 * 4
    ensures forall i :: 0 <= i < |s| ==> InAlphabet(s[i]) || s[i] == Pad
    ensures forall i :: 0 <= i < |s| - 2 ==> InAlphabet(s[i])
    decreases |b|
  {
    if |b| == 0 then []
    else if |b| == 1 then [Char(b[0] / 4), Char(b[0] % 4 * 16), Pad, Pad]
    else if |b| == 2 then [Char(b[0] / 4), Char(b[0] % 4 * 16 + b[1] / 16), Char(b[1] % 16 * 4), Pad]
    else
      var rest := Encode(b[3..]);
      PadOnlyAtEnd(EncodeGroup(b[0], b[1], b[2]), rest);
      EncodeGroup(b[0], b[1], b[2]) + rest
  }

  /** A full group in front of text with '=' only in its last two positions keeps that shape. */
  lemma PadOnlyAtEnd(g: seq<byte>, rest: seq<byte>)
    requires forall i :: 0 <= i < |g| ==> InAlphabet(g[i])
    requires forall i :: 0 <= i < |rest| ==> InAlphabet(rest[i]) || rest[i] == Pad
    requires forall i :: 0 <= i < |rest| - 2 ==> InAlphabet(rest[i])
    ensures forall i :: 0 <= i < |g + rest| ==> InAlphabet((g + rest)[i]) || (g + rest)[i] == Pad
    ensures forall i :: 0 <= i < |g + rest| - 2 ==> InAlphabet((g + rest)[i])
  {
  }

  /** The three octets carried by four sextets: 6+2, 4+4 and 2+6 bits. */
  function Octet0(v0: sextet, v1: sextet): byte
  {
    (v0 as int) * 4 + (v1 as int) / 16
  }

  function Octet1(v1: sextet, v2: sextet): byte
  {
    (v1 as int) % 16 * 16 + (v2 as int) / 4
  }

  function Octet2(v2: sextet, v3: sextet): byte
  {
    (v2 as int) % 4 * 64 + (v3 as int)
  }

  /**
   * Decodes one quadruple of characters. `last` tells whether it ends the
   * input: only the last quadruple may carry padding.
   */
  function DecodeQuad(c0: byte, c1: byte, c2: byte, c3: byte, last: bool): (r: Option<seq<byte>>)
    ensures r.Some? ==> 1 <= |r.value| <= 3
  {
    match (Value(c0), Value(c1), Value(c2), Value(c3))
    case (Some(v0), Some(v1), Some(v2), Some(v3)) =>
      Some([Octet0(v0, v1), Octet1(v1, v2), Octet2(v2, v3)])
    case (Some(v0), Some(v1), Some(v2), None) =>
      if last && c3 == Pad && v2 % 4 == 0 then Some([Octet0(v0, v1), Octet1(v1, v2)]) else None
    case (Some(v0), Some(v1), None, None) =>
      if last && c2 == Pad && c3 == Pad && v1 % 16 == 0 then Some([Octet0(v0, v1)]) else None
    case _ => None
  }

  /** Strict Base64 decoding; `None` for anything that is not a canonical encoding. */
  function Decode(s: seq<byte>): Option<seq<byte>>
    decreases |s|
  {
    if |s| == 0 then Some([])
    else if |s| < 4 then None
    else
      match DecodeQuad(s[0], s[1], s[2], s[3], |s| == 4)
      case None => None
      case Some(group) =>
        match Decode(s[4..])
        case None => None
        case Some(rest) => Some(group + rest)
  }

  /** Splitting octets into sextets and joining them back loses nothing. */
  lemma JoinSplit0(b0: byte, b1: byte)
    ensures Octet0(b0 / 4, b0 % 4 * 16 + b1 / 16) == b0
  {
    var a, c := b0 % 4, b1 / 16;
    assert (a * 16 + c) / 16 == a;
  }

  lemma JoinSplit1(b0: byte, b1: byte, b2: byte)
    ensures Octet1(b0 % 4 * 16 + b1 / 16, b1 % 16 * 4 + b2 / 64) == b1
  {
    var a, c := b1 % 16, b2 / 64;
    assert (a * 4 + c) / 4 == a;
  }

  lemma JoinSplit2(b1: byte, b2: byte)
    ensures Octet2(b1 % 16 * 4 + b2 / 64, b2 % 64) == b2
  {
    var a, c := b1 % 16, b2 / 64;
    assert (a * 4 + c) % 4 == c;
  }

  lemma DecodeCharsFull(x0: sextet, x1: sextet, x2: sextet, x3: sextet, last: bool)
    ensures DecodeQuad(Char(x0), Char(x1), Char(x2), Char(x3), last)
         == Some([Octet0(x0, x1), Octet1(x1, x2), Octet2(x2, x3)])
  {
  }

  lemma DecodeCharsTwo(x0: sextet, x1: sextet, x2: sextet)
    requires x2 % 4 == 0
    ensures DecodeQuad(Char(x0), Char(x1), Char(x2), Pad, true) == Some([Octet0(x0, x1), Octet1(x1, x2)])
  {
  }

  lemma DecodeCharsOne(x0: sextet, x1: sextet)
    requires x1 % 16 == 0
    ensures DecodeQuad(Char(x0), Char(x1), Pad, Pad, true) == Some([Octet0(x0, x1)])
  {
  }

  lemma DecodeOneGroup(b0: byte)
    ensures Decode([Char(b0 / 4), Char(b0 % 4 * 16), Pad, Pad]) == Some([b0])
  {
    var x0, x1 := b0 / 4, b0 % 4 * 16;
    var s := [Char(x0), Char(x1), Pad, Pad];
    DecodeCharsOne(x0, x1);
    JoinSplit0(b0, 0);
    assert DecodeQuad(s[0], s[1], s[2], s[3], |s| == 4) == Some([b0]);
    assert s[4..] == [];
    assert Decode(s[4..]) == Some([]);
    assert [b0] + [] == [b0];
  }

  lemma DecodeTwoGroup(b0: byte, b1: byte)
    ensures Decode([Char(b0 / 4), Char(b0 % 4 * 16 + b1 / 16), Char(b1 % 16 * 4), Pad]) == Some([b0, b1])
  {
    var x0, x1, x2 := b0 / 4, b0 % 4 * 16 + b1 / 16, b1 % 16 * 4;
    var s := [Char(x0), Char(x1), Char(x2), Pad];
    DecodeCharsTwo(x0, x1, x2);
    JoinSplit0(b0, b1);
    JoinSplit1(b0, b1, 0);
    assert DecodeQuad(s[0], s[1], s[2], s[3], |s| == 4) == Some([b0, b1]);
    assert s[4..] == [];
    assert Decode(s[4..]) == Some([]);
    assert [b0, b1] + [] == [b0, b1];
  }

  lemma DecodeFullGroup(b0: byte, b1: byte, b2: byte, last: bool)
    ensures var e := EncodeGroup(b0, b1, b2);
            DecodeQuad(e[0], e[1], e[2], e[3], last) == Some([b0, b1, b2])
  {
    DecodeCharsFull(b0 / 4, b0 % 4 * 16 + b1 / 16, b1 % 16 * 4 + b2 / 64, b2 % 64, last);
    JoinSplit0(b0, b1);
    JoinSplit1(b0, b1, b2);
    JoinSplit2(b1, b2);
  }

  /** `Decode` consumes one quadruple and then the rest. */
  lemma DecodeCons(q: seq<byte>, rest: seq<byte>)
    requires |q| == 4
    requires DecodeQuad(q[0], q[1], q[2], q[3], |rest| == 0).Some?
    requires Decode(rest).Some?
    ensures Decode(q + rest) == Some(DecodeQuad(q[0], q[1], q[2], q[3], |rest| == 0).value + Decode(rest).value)
  {
    var s := q + rest;
    assert s[0] == q[0] && s[1] == q[1] && s[2] == q[2] && s[3] == q[3];
    assert s[4..] == rest;
  }

  /** A full group in front of any decodable text decodes to its three octets. */
  lemma DecodeGroupCons(b0: byte, b1: byte, b2: byte, rest: seq<byte>)
    requires Decode(rest).Some?
    ensures Decode(EncodeGroup(b0, b1, b2) + rest) == Some([b0, b1, b2] + Decode(rest).value)
  {
    DecodeFullGroup(b0, b1, b2, |rest| == 0);
    DecodeCons(EncodeGroup(b0, b1, b2), rest);
  }

  /** `Encode` consumes one group of three octets and then the rest. */
  lemma EncodeCons(b: seq<byte>)
    requires |b| > 2
    ensures Encode(b) == EncodeGroup(b[0], b[1], b[2]) + Encode(b[3..])
  {
  }

  lemma DecodeEncodeOne(b: seq<byte>)
    requires |b| == 1
    ensures Decode(Encode(b)) == Some(b)
  {
    assert b == [b[0]];
    DecodeOneGroup(b[0]);
  }

  lemma DecodeEncodeTwo(b: seq<byte>)
    requires |b| == 2
    ensures Decode(Encode(b)) == Some(b)
  {
    assert b == [b[0], b[1]];
    DecodeTwoGroup(b[0], b[1]);
  }

  lemma SplitFirstThree(b: seq<byte>)
    requires |b| > 2
    ensures [b[0], b[1], b[2]] + b[3..] == b
  {
  }

  lemma DecodeEncodeStep(b: seq<byte>)
    requires |b| > 2
    requires Decode(Encode(b[3..])) == Some(b[3..])
    ensures Decode(Encode(b)) == Some(b)
  {
    SplitFirstThree(b);
    EncodeCons(b);
    DecodeGroupCons(b[0], b[1], b[2], Encode(b[3..]));
  }

  /** Decoding undoes encoding: every byte string survives the round trip. */
  lemma {:induction false} DecodeEncode(b: seq<byte>)
    ensures Decode(Encode(b)) == Some(b)
    decreases |b|
  {
    if |b| == 1 {
      DecodeEncodeOne(b);
    } else if |b| == 2 {
      DecodeEncodeTwo(b);
    } else if |b| > 2 {
      DecodeEncode(b[3..]);
      DecodeEncodeStep(b);
    }
  }

  /** Joining sextets into octets and splitting them again loses nothing. */
  lemma SplitJoinFull(v0: sextet, v1: sextet, v2: sextet, v3: sextet)
    ensures EncodeGroup(Octet0(v0, v1), Octet1(v1, v2), Octet2(v2, v3)) == [Char(v0), Char(v1), Char(v2), Char(v3)]
  {
    var o0, o1, o2 := Octet0(v0, v1), Octet1(v1, v2), Octet2(v2, v3);
    assert o0 / 4 == v0;
    assert o0 % 4 * 16 + o1 / 16 == v1;
    assert o1 % 16 * 4 + o2 / 64 == v2;
    assert o2 % 64 == v3;
  }

  lemma SplitJoinTwo(v0: sextet, v1: sextet, v2: sextet)
    requires v2 % 4 == 0
    ensures Encode([Octet0(v0, v1), Octet1(v1, v2)]) == [Char(v0), Char(v1), Char(v2), Pad]
  {
    var o0, o1 := Octet0(v0, v1), Octet1(v1, v2);
    assert o0 / 4 == v0;
    assert o0 % 4 * 16 + o1 / 16 == v1;
    assert o1 % 16 * 4 == v2;
  }

  lemma SplitJoinOne(v0: sextet, v1: sextet)
    requires v1 % 16 == 0
    ensures Encode([Octet0(v0, v1)]) == [Char(v0), Char(v1), Pad, Pad]
  {
    var o0 := Octet0(v0, v1);
    assert o0 / 4 == v0;
    assert o0 % 4 * 16 == v1;
  }

  lemma DecodeThenEncodeQuad(c0: byte, c1: byte, c2: byte, c3: byte, last: bool)
    requires DecodeQuad(c0, c1, c2, c3, last).Some?
    ensures var g := DecodeQuad(c0, c1, c2, c3, last).value;
            |g| == 3 ==> EncodeGroup(g[0], g[1], g[2]) == [c0, c1, c2, c3]
    ensures var g := DecodeQuad(c0, c1, c2, c3, last).value;
            |g| < 3 ==> last && Encode(g) == [c0, c1, c2, c3]
  {
    CharOfValue(c0);
    CharOfValue(c1);
    var v0, v1 := Value(c0).value, Value(c1).value;
    if Value(c2).None? {
      SplitJoinOne(v0, v1);
    } else if Value(c3).None? {
      CharOfValue(c2);
      SplitJoinTwo(v0, v1, Value(c2).value);
    } else {
      CharOfValue(c2);
      CharOfValue(c3);
      SplitJoinFull(v0, v1, Value(c2).value, Value(c3).value);
    }
  }

  /** Decoding accepts only canonical encodings: whatever it accepts is the encoding of what it returns. */
  lemma {:induction false} EncodeDecode(s: seq<byte>)
    requires Decode(s).Some?
    ensures Encode(Decode(s).value) == s
    decreases |s|
  {
    if |s| != 0 {
      var q, rest := s[..4], s[4..];
      var g := DecodeQuad(s[0], s[1], s[2], s[3], |s| == 4).value;
      var r := Decode(rest).value;
      assert Decode(s) == Some(g + r);
      DecodeThenEncodeQuad(s[0], s[1], s[2], s[3], |s| == 4);
      EncodeDecode(rest);
      assert q == [s[0], s[1], s[2], s[3]];
      if |g| < 3 {
        assert r == [] && g + r == g;
      } else {
        EncodeCons(g + r);
        assert (g + r)[3..] == r;
      }
      assert s == q + rest;
    }
  }

  /** The two lemmas above together: `Decode` is exactly the inverse of `Encode`. */
  lemma DecodeIffEncode(s: seq<byte>, b: seq<byte>)
    ensures Decode(s) == Some(b) <==> Encode(b) == s
  {
    if Decode(s) == Some(b) {
      EncodeDecode(s);
    }
    if Encode(b) == s {
      DecodeEncode(b);
    }
  }

  /** Distinct byte strings have distinct encodings. */
  lemma EncodeInjective(a: seq<byte>, b: seq<byte>)
    requires Encode(a) == Encode(b)
    ensures a == b
  {
    DecodeEncode(a);
    DecodeEncode(b);
  }

  /**
   * The test vectors of section 10 of RFC 4648 ("f", ..., "foobar"), in ASCII
   * codes, plus one that uses the last two alphabet characters '+' and '/'.
   * They pin the alphabet to Table 1 of RFC 4648.
   */
  lemma VectorF()
    ensures Encode([102]) == [90, 103, 61, 61]  // "f" -> "Zg=="
  {
  }

  lemma VectorFo()
    ensures Encode([102, 111]) == [90, 109, 56, 61]  // "fo" -> "Zm8="
  {
  }

  lemma VectorFoo()
    ensures Encode([102, 111, 111]) == [90, 109, 57, 118]  // "foo" -> "Zm9v"
  {
    EncodeGroupOnly(102, 111, 111);
    GroupFoo();
  }

  lemma VectorFoob()
    ensures Encode([102, 111, 111, 98]) == [90, 109, 57, 118, 89, 103, 61, 61]  // "Zm9vYg=="
  {
    EncodeAfterGroup(102, 111, 111, [98]);
    GroupFoo();
    assert Encode([98]) == [89, 103, 61, 61];
  }

  lemma VectorFooba()
    ensures Encode([102, 111, 111, 98, 97]) == [90, 109, 57, 118, 89, 109, 69, 61]  // "Zm9vYmE="
  {
    EncodeAfterGroup(102, 111, 111, [98, 97]);
    GroupFoo();
    assert Encode([98, 97]) == [89, 109, 69, 61];
  }

  lemma VectorFoobar()
    ensures Encode([102, 111, 111, 98, 97, 114]) == [90, 109, 57, 118, 89, 109, 70, 121]  // "Zm9vYmFy"
  {
    EncodeAfterGroup(102, 111, 111, [98, 97, 114]);
    GroupFoo();
    EncodeGroupOnly(98, 97, 114);
    GroupBar();
  }

  /** The groups "foo" and "bar" of the vectors above. */
  lemma GroupFoo()
    ensures EncodeGroup(102, 111, 111) == [90, 109, 57, 118]
  {
  }

  lemma GroupBar()
    ensures EncodeGroup(98, 97, 114) == [89, 109, 70, 121]
  {
  }

  /** Three octets in front of any others encode as one full group and then the rest. */
  lemma EncodeAfterGroup(b0: byte, b1: byte, b2: byte, rest: seq<byte>)
    ensures Encode([b0, b1, b2] + rest) == EncodeGroup(b0, b1, b2) + Encode(rest)
  {
    var b := [b0, b1, b2] + rest;
    EncodeCons(b);
    assert b[3..] == rest;
  }

  /** Three octets alone encode as one full group. */
  lemma EncodeGroupOnly(b0: byte, b1: byte, b2: byte)
    ensures Encode([b0, b1, b2]) == EncodeGroup(b0, b1, b2)
  {
    EncodeAfterGroup(b0, b1, b2, []);
    assert [b0, b1, b2] + [] == [b0, b1, b2];
  }

  lemma VectorPlusSlash()
    ensures Encode([251, 255]) == [43, 47, 56, 61]  // "+/8="
  {
  }

  /** Decoding the vectors gives the octets back. */
  lemma DecodeVectorFoobar()
    ensures Decode([90, 109, 57, 118, 89, 109, 70, 121]) == Some([102, 111, 111, 98, 97, 114])
  {
    VectorFoobar();
    DecodeIffEncode([90, 109, 57, 118, 89, 109, 70, 121], [102, 111, 111, 98, 97, 114]);
  }

  lemma DecodeVectorF()
    ensures Decode([90, 103, 61, 61]) == Some([102])
  {
    VectorF();
    DecodeIffEncode([90, 103, 61, 61], [102]);
  }

  /** Padding before the end is refused: "Zg==Zg==" does not decode. */
  lemma DecodeRejectsInnerPad()
    ensures Decode([90, 103, 61, 61, 90, 103, 61, 61]) == None
  {
    var s: seq<byte> := [90, 103, 61, 61, 90, 103, 61, 61];
    assert DecodeQuad(s[0], s[1], s[2], s[3], false) == None;
  }
}
