/** The base64 alphabet and encoding of section 4 of RFC 4648, with '='
    padding. Decoding accepts exactly the canonical encodings: a length that
    is a multiple of four, alphabet characters only, padding only at the end,
    and zero bits in the positions padding leaves unused. */
module Base64 {
  import opened Wrappers
  import opened Text

  type Sextet = i: int | 0 <= i < 64

  /** Value i is written 'A'..'Z', 'a'..'z', '0'..'9', '+', '/'. */
  function CharOf(i: Sextet): (c: char)
    ensures c != '='
  {
    if i < 26 then ('A' as int + i) as char
    else if i < 52 then ('a' as int + (i - 26)) as char
    else if i < 62 then ('0' as int + (i - 52)) as char
    else if i == 62 then '+'
    else '/'
  }

  /** The value of an alphabet character; None for any other character,
      '=' included. */
  function IndexOf(c: char): (r: Option<Sextet>)
    ensures r.Some? ==> CharOf(r.value) == c
  {
    if 'A' <= c <= 'Z' then Some(c as int - 'A' as int)
    else if 'a' <= c <= 'z' then Some(c as int - 'a' as int + 26)
    else if '0' <= c <= '9' then Some(c as int - '0' as int + 52)
    else if c == '+' then Some(62)
    else if c == '/' then Some(63)
    else None
  }

  lemma IndexOfCharOf(i: Sextet)
    ensures IndexOf(CharOf(i)) == Some(i)
  {
  }

  predicate IsAlphabet(c: char)
  {
    IndexOf(c).Some?
  }

  /** The four sextets of three bytes x, y, z: the high six bits of x; the
      low two bits of x and the high four of y; the low four bits of y and
      the high two of z; the low six bits of z. */
  function Sextet0(x: Byte): Sextet { x / 4 }
  function Sextet1(x: Byte, y: Byte): Sextet { (x % 4) * 16 + y / 16 }
  function Sextet2(y: Byte, z: Byte): Sextet { (y % 16) * 4 + z / 64 }
  function Sextet3(z: Byte): Sextet { z % 64 }

  /** The three bytes of four sextets a, b, c, d (the inverse split). */
  function Byte0(a: Sextet, b: Sextet): Byte { a * 4 + b / 16 }
  function Byte1(b: Sextet, c: Sextet): Byte { (b % 16) * 16 + c / 4 }
  function Byte2(c: Sextet, d: Sextet): Byte { (c % 4) * 64 + d }

  /** Three bytes as four characters. */
  function EncodeGroup(x: Byte, y: Byte, z: Byte): string
  {
    [CharOf(Sextet0(x)), CharOf(Sextet1(x, y)), CharOf(Sextet2(y, z)), CharOf(Sextet3(z))]
  }

  /** The last one or two bytes, padded to four characters. */
  function EncodeTail(b: Bytes): string
    requires |b| < 3
  {
    if |b| == 0 then ""
    else if |b| == 1 then [CharOf(Sextet0(b[0])), CharOf(Sextet1(b[0], 0)), '=', '=']
    else [CharOf(Sextet0(b[0])), CharOf(Sextet1(b[0], b[1])), CharOf(Sextet2(b[1], 0)), '=']
  }

  function Encode(b: Bytes): (s: string)
    ensures |s| == 4 * ((|b| + 2) / 3)
  {
    if |b| < 3 then EncodeTail(b)
    else EncodeGroup(b[0], b[1], b[2]) + Encode(b[3..])
  }

  /** Four alphabet characters as three bytes. */
  function DecodeGroup(q: string): (r: Option<Bytes>)
    requires |q| == 4
    ensures r.Some? ==> |r.value| == 3
  {
    var a, b, c, d := IndexOf(q[0]), IndexOf(q[1]), IndexOf(q[2]), IndexOf(q[3]);
    if a.None? || b.None? || c.None? || d.None? then None
    else Some([Byte0(a.value, b.value), Byte1(b.value, c.value), Byte2(c.value, d.value)])
  }

  /** The last quantum: a full group, or two or three characters and padding
      whose unused bits are zero. */
  function DecodeLast(q: string): (r: Option<Bytes>)
    requires |q| == 4
    ensures r.Some? ==> 1 <= |r.value| <= 3
  {
    if q[2] == '=' && q[3] == '=' then
      var a, b := IndexOf(q[0]), IndexOf(q[1]);
      if a.None? || b.None? || b.value % 16 != 0 then None
      else Some([Byte0(a.value, b.value)])
    else if q[3] == '=' then
      var a, b, c := IndexOf(q[0]), IndexOf(q[1]), IndexOf(q[2]);
      if a.None? || b.None? || c.None? || c.value % 4 != 0 then None
      else Some([Byte0(a.value, b.value), Byte1(b.value, c.value)])
    else DecodeGroup(q)
  }

  /** `b64decode` on canonical padded text: four characters for every
      started group of three bytes; the empty text is no bytes. */
  function Decode(s: string): (r: Option<Bytes>)
    ensures r.Some? ==> |s| == 4 * ((|r.value| + 2) / 3)
    ensures s == [] ==> r == Some([])
  {
    if |s| == 0 then Some([])
    else if |s| < 4 then None
    else if |s| == 4 then DecodeLast(s)
    else match DecodeGroup(s[..4])
      case None => None
      case Some(g) =>
        match Decode(s[4..])
        case None => None
        case Some(rest) => if rest == [] then None else Some(g + rest)
  }

  /** Splitting three bytes into four sextets and joining them again is
      the identity. */
  lemma Resplit(x: Byte, y: Byte, z: Byte)
    ensures Byte0(Sextet0(x), Sextet1(x, y)) == x
    ensures Byte1(Sextet1(x, y), Sextet2(y, z)) == y
    ensures Byte2(Sextet2(y, z), Sextet3(z)) == z
  {
    assert Sextet1(x, y) / 16 == x % 4 && Sextet1(x, y) % 16 == y / 16;
    assert Sextet2(y, z) / 4 == y % 16 && Sextet2(y, z) % 4 == z / 64;
  }

  lemma GroupRoundTrip(x: Byte, y: Byte, z: Byte)
    ensures DecodeGroup(EncodeGroup(x, y, z)) == Some([x, y, z])
  {
    IndexOfCharOf(Sextet0(x));
    IndexOfCharOf(Sextet1(x, y));
    IndexOfCharOf(Sextet2(y, z));
    IndexOfCharOf(Sextet3(z));
    Resplit(x, y, z);
  }

  /** The bits a padded quantum leaves unused are zero in an encoding. */
  lemma PadBitsZero(x: Byte)
    ensures Sextet1(x, 0) % 16 == 0 && Sextet2(x, 0) % 4 == 0
  {
    var k := x % 4;
    assert k == 0 || k == 1 || k == 2 || k == 3;
    var m := x % 16;
    assert Sextet2(x, 0) == m * 4;
  }

  lemma OnePadDecode(a: Sextet, b: Sextet)
    requires b % 16 == 0
    ensures DecodeLast([CharOf(a), CharOf(b), '=', '=']) == Some([Byte0(a, b)])
  {
    IndexOfCharOf(a);
    IndexOfCharOf(b);
  }

  lemma OneByteRoundTrip(x: Byte)
    ensures DecodeLast(EncodeTail([x])) == Some([x])
  {
    Resplit(x, 0, 0);
    PadBitsZero(x);
    OnePadDecode(Sextet0(x), Sextet1(x, 0));
  }

  lemma TwoPadDecode(a: Sextet, b: Sextet, c: Sextet)
    requires c % 4 == 0
    ensures DecodeLast([CharOf(a), CharOf(b), CharOf(c), '=']) == Some([Byte0(a, b), Byte1(b, c)])
  {
    IndexOfCharOf(a);
    IndexOfCharOf(b);
    IndexOfCharOf(c);
  }

  lemma TwoBytesRoundTrip(x: Byte, y: Byte)
    ensures DecodeLast(EncodeTail([x, y])) == Some([x, y])
  {
    Resplit(x, y, 0);
    PadBitsZero(y);
    TwoPadDecode(Sextet0(x), Sextet1(x, y), Sextet2(y, 0));
  }

  lemma TailRoundTrip(b: Bytes)
    requires 0 < |b| < 3
    ensures DecodeLast(EncodeTail(b)) == Some(b)
  {
    if |b| == 1 {
      OneByteRoundTrip(b[0]);
      assert [b[0]] == b;
    } else {
      TwoBytesRoundTrip(b[0], b[1]);
      assert [b[0], b[1]] == b;
    }
  }

  lemma {:induction false} EncodeAlphabetOrPad(b: Bytes)
    ensures forall i :: 0 <= i < |Encode(b)| ==> IsAlphabet(Encode(b)[i]) || Encode(b)[i] == '='
    ensures |b| >= 3 ==> DecodeGroup(Encode(b)[..4]).Some?
  {
    if |b| < 3 {
      if |b| > 0 {
        IndexOfCharOf(Sextet0(b[0]));
        if |b| == 1 {
          IndexOfCharOf(Sextet1(b[0], 0));
        } else {
          IndexOfCharOf(Sextet1(b[0], b[1]));
          IndexOfCharOf(Sextet2(b[1], 0));
        }
      }
    } else {
      EncodeAlphabetOrPad(b[3..]);
      GroupRoundTrip(b[0], b[1], b[2]);
      IndexOfCharOf(Sextet0(b[0]));
      IndexOfCharOf(Sextet1(b[0], b[1]));
      IndexOfCharOf(Sextet2(b[1], b[2]));
      IndexOfCharOf(Sextet3(b[2]));
      assert (EncodeGroup(b[0], b[1], b[2]) + Encode(b[3..]))[..4] == EncodeGroup(b[0], b[1], b[2]);
    }
  }

  /** How an encoding ends: "==" after one leftover byte, one '=' after
      two, no padding when the length is a multiple of three. */
  predicate EndsAsPadded(s: string, n: nat)
  {
    && |s| >= 2
    && (n % 3 == 1 ==> s[|s| - 2] == '=' && s[|s| - 1] == '=')
    && (n % 3 == 2 ==> s[|s| - 2] != '=' && s[|s| - 1] == '=')
    && (n % 3 == 0 ==> s[|s| - 2] != '=' && s[|s| - 1] != '=')
  }

  lemma EndingOfShort(b: Bytes)
    requires 0 < |b| <= 3
    ensures EndsAsPadded(Encode(b), |b|)
  {
    if |b| == 3 {
      assert b[3..] == [];
      assert Encode(b) == EncodeGroup(b[0], b[1], b[2]) + Encode([]);
    }
  }

  lemma EndingOfConcat(head: string, rest: string, n: nat)
    requires EndsAsPadded(rest, n)
    ensures EndsAsPadded(head + rest, n + 3)
  {
    var s := head + rest;
    assert s[|s| - 2] == rest[|rest| - 2] && s[|s| - 1] == rest[|rest| - 1];
  }

  lemma {:induction false} EncodeEnding(b: Bytes)
    requires |b| > 0
    ensures EndsAsPadded(Encode(b), |b|)
  {
    if |b| <= 3 {
      EndingOfShort(b);
    } else {
      EncodeEnding(b[3..]);
      EndingOfConcat(EncodeGroup(b[0], b[1], b[2]), Encode(b[3..]), |b[3..]|);
    }
  }

  /** Decoding undoes encoding. */
  /** A full group followed by a non-empty decodable rest decodes group by
      group. */
  lemma DecodeCons(head: string, tail: string, g: Bytes, rest: Bytes)
    requires |head| == 4 && |tail| > 0
    requires DecodeGroup(head) == Some(g) && Decode(tail) == Some(rest) && rest != []
    ensures Decode(head + tail) == Some(g + rest)
  {
    var s := head + tail;
    assert s[..4] == head && s[4..] == tail;
  }

  /** Decoding undoes encoding. */
  lemma {:induction false} DecodeEncode(b: Bytes)
    ensures Decode(Encode(b)) == Some(b)
  {
    if |b| == 0 {
    } else if |b| < 3 {
      TailRoundTrip(b);
    } else {
      var head := EncodeGroup(b[0], b[1], b[2]);
      assert Encode(b) == head + Encode(b[3..]);
      GroupRoundTrip(b[0], b[1], b[2]);
      if |b| == 3 {
        assert b[3..] == [] && Encode(b) == head;
        assert DecodeLast(head) == DecodeGroup(head);
        assert b == [b[0], b[1], b[2]];
      } else {
        DecodeEncode(b[3..]);
        DecodeCons(head, Encode(b[3..]), [b[0], b[1], b[2]], b[3..]);
        assert b == [b[0], b[1], b[2]] + b[3..];
      }
    }
  }

  /** Joining four sextets into three bytes and splitting them again is
      the identity. */
  lemma Rejoin(a: Sextet, b: Sextet, c: Sextet, d: Sextet)
    ensures Sextet0(Byte0(a, b)) == a
    ensures Sextet1(Byte0(a, b), Byte1(b, c)) == b
    ensures Sextet2(Byte1(b, c), Byte2(c, d)) == c
    ensures Sextet3(Byte2(c, d)) == d
  {
    assert Byte0(a, b) / 4 == a && Byte0(a, b) % 4 == b / 16;
    assert Byte1(b, c) / 16 == b % 16 && Byte1(b, c) % 16 == c / 4;
    assert Byte2(c, d) / 64 == c % 4 && Byte2(c, d) % 64 == d;
  }

  lemma GroupEncode(a: Sextet, b: Sextet, c: Sextet, d: Sextet)
    ensures EncodeGroup(Byte0(a, b), Byte1(b, c), Byte2(c, d)) == [CharOf(a), CharOf(b), CharOf(c), CharOf(d)]
  {
    Rejoin(a, b, c, d);
  }

  lemma GroupInverse(q: string)
    requires |q| == 4 && DecodeGroup(q).Some?
    ensures |DecodeGroup(q).value| == 3
    ensures var g := DecodeGroup(q).value; EncodeGroup(g[0], g[1], g[2]) == q
  {
    var a, b, c, d := IndexOf(q[0]).value, IndexOf(q[1]).value, IndexOf(q[2]).value, IndexOf(q[3]).value;
    assert q == [CharOf(a), CharOf(b), CharOf(c), CharOf(d)];
    GroupEncode(a, b, c, d);
  }

  lemma OnePadSplit(a: Sextet, b: Sextet)
    requires b % 16 == 0
    ensures Sextet0(Byte0(a, b)) == a && Sextet1(Byte0(a, b), 0) == b
  {
    assert Byte1(b, 0) == 0;
    Rejoin(a, b, 0, 0);
  }

  lemma OnePadEncode(a: Sextet, b: Sextet)
    requires b % 16 == 0
    ensures EncodeTail([Byte0(a, b)]) == [CharOf(a), CharOf(b), '=', '=']
  {
    OnePadSplit(a, b);
  }

  lemma TwoPadSplit(a: Sextet, b: Sextet, c: Sextet)
    requires c % 4 == 0
    ensures Sextet0(Byte0(a, b)) == a
    ensures Sextet1(Byte0(a, b), Byte1(b, c)) == b
    ensures Sextet2(Byte1(b, c), 0) == c
  {
    assert Byte2(c, 0) == 0;
    Rejoin(a, b, c, 0);
  }

  lemma TwoPadEncode(a: Sextet, b: Sextet, c: Sextet)
    requires c % 4 == 0
    ensures EncodeTail([Byte0(a, b), Byte1(b, c)]) == [CharOf(a), CharOf(b), CharOf(c), '=']
  {
    TwoPadSplit(a, b, c);
  }

  /** A quantum padded with "==" re-encodes from its one byte. */
  lemma OnePadInverse(q: string)
    requires |q| == 4 && q[2] == '=' && q[3] == '=' && DecodeLast(q).Some?
    ensures |DecodeLast(q).value| == 1
    ensures EncodeTail(DecodeLast(q).value) == q
  {
    var a, b := IndexOf(q[0]).value, IndexOf(q[1]).value;
    assert q == [CharOf(a), CharOf(b), '=', '='];
    OnePadDecode(a, b);
    OnePadEncode(a, b);
  }

  /** A quantum padded with one '=' re-encodes from its two bytes. */
  lemma TwoPadInverse(q: string)
    requires |q| == 4 && q[2] != '=' && q[3] == '=' && DecodeLast(q).Some?
    ensures |DecodeLast(q).value| == 2
    ensures EncodeTail(DecodeLast(q).value) == q
  {
    var a, b, c := IndexOf(q[0]).value, IndexOf(q[1]).value, IndexOf(q[2]).value;
    assert q == [CharOf(a), CharOf(b), CharOf(c), '='];
    TwoPadDecode(a, b, c);
    TwoPadEncode(a, b, c);
  }

  lemma LastInverse(q: string)
    requires |q| == 4 && DecodeLast(q).Some?
    ensures 0 < |DecodeLast(q).value| <= 3
    ensures var g := DecodeLast(q).value;
      if |g| == 3 then EncodeGroup(g[0], g[1], g[2]) == q else EncodeTail(g) == q
  {
    if q[2] == '=' && q[3] == '=' {
      OnePadInverse(q);
    } else if q[3] == '=' {
      TwoPadInverse(q);
    } else {
      GroupInverse(q);
    }
  }

  /** Only canonical text decodes: re-encoding the result gives the input
      back. */
  lemma {:induction false} EncodeDecode(s: string)
    requires Decode(s).Some?
    ensures Encode(Decode(s).value) == s
  {
    if |s| == 4 {
      LastInverse(s);
    } else if |s| > 4 {
      GroupInverse(s[..4]);
      EncodeDecode(s[4..]);
      var g := DecodeGroup(s[..4]).value;
      var rest := Decode(s[4..]).value;
      assert (g + rest)[3..] == rest;
      assert s == s[..4] + s[4..];
    }
  }
}
