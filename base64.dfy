/**
 * The standard base64 encoding of section 4 of RFC 4648 (alphabet A-Z a-z 0-9 + /,
 * '=' padding), as used by Go's base64.StdEncoding.EncodeToString, together with a
 * decoder that inverts it.
 */
module Base64 {
  import opened Wrappers

  type byte = b: int | 0 <= b < 256
  type sextet = v: int | 0 <= v < 64

  /** A character of the 64-letter alphabet (padding excluded). */
  predicate IsAlphabet(c: char) {
    'A' <= c <= 'Z' || 'a' <= c <= 'z' || '0' <= c <= '9' || c == '+' || c == '/'
  }

  /** The value a letter of the alphabet stands for. */
  function Index(c: char): (v: sextet)
    requires IsAlphabet(c)
  {
    if 'A' <= c <= 'Z' then c as int - 'A' as int
    else if 'a' <= c <= 'z' then c as int - 'a' as int + 26
    else if '0' <= c <= '9' then c as int - '0' as int + 52
    else if c == '+' then 62
    else 63
  }

  /** The letter that stands for `v`; `Index` reads it back. */
  function Letter(v: sextet): (c: char)
    ensures IsAlphabet(c) && Index(c) == v
  {
    if v < 26 then ('A' as int + v) as char
    else if v < 52 then ('a' as int + (v - 26)) as char
    else if v < 62 then ('0' as int + (v - 52)) as char
    else if v == 62 then '+'
    else '/'
  }

  /** Three bytes as four letters: each letter carries six of the 24 bits, high bits first. */
  function Quad(b0: byte, b1: byte, b2: byte): string {
    [Letter(b0 / 4), Letter((b0 % 4) * 16 + b1 / 16), Letter((b1 % 16) * 4 + b2 / 64), Letter(b2 % 64)]
  }

  /** EncodeToString: whole groups of three bytes, then a final group of one or two bytes
      padded with "==" or "=". */
  function Encode(b: seq<byte>): (s: string)
    ensures |s| == 4 * ((|b| + 2) / 3)
    ensures forall i :: 0 <= i < |s| ==> IsAlphabet(s[i]) || s[i] == '='
    decreases |b|
  {
    if |b| == 0 then ""
    else if |b| == 1 then [Letter(b[0] / 4), Letter((b[0] % 4) * 16), '=', '=']
    else if |b| == 2 then [Letter(b[0] / 4), Letter((b[0] % 4) * 16 + b[1] / 16), Letter((b[1] % 16) * 4), '=']
    else Quad(b[0], b[1], b[2]) + Encode(b[3..])
  }

  /** Reads one group of four characters; a padded group must be the last one. */
  function DecodeGroup(s: string, last: bool): Option<seq<byte>>
    requires |s| == 4
  {
    if !IsAlphabet(s[0]) || !IsAlphabet(s[1]) then None
    else
      var v0, v1 := Index(s[0]), Index(s[1]);
      var b0: byte := v0 * 4 + v1 / 16;
      if last && s[2] == '=' && s[3] == '=' then Some([b0])
      else if !IsAlphabet(s[2]) then None
      else
        var v2 := Index(s[2]);
        var b1: byte := (v1 % 16) * 16 + v2 / 4;
        if last && s[3] == '=' then Some([b0, b1])
        else if !IsAlphabet(s[3]) then None
        else Some([b0, b1, (v2 % 4) * 64 + Index(s[3])])
  }

  /** The inverse of `Encode`: `None` for a text that is not a padded encoding. */
  function Decode(s: string): (r: Option<seq<byte>>)
    decreases |s|
  {
    if |s| == 0 then Some([])
    else if |s| < 4 then None
    else match DecodeGroup(s[..4], |s| == 4)
      case None => None
      case Some(head) =>
        match Decode(s[4..])
        case None => None
        case Some(tail) => Some(head + tail)
  }

  lemma HighLow(x: int, d: int)
    requires 0 <= x && 0 < d
    ensures x == (x / d) * d + x % d && 0 <= x % d < d
  {
  }

  /** The bits of three bytes survive the split into four letters. */
  lemma QuadBits(b0: byte, b1: byte, b2: byte)
    ensures ((b0 % 4) * 16 + b1 / 16) / 16 == b0 % 4
    ensures ((b0 % 4) * 16 + b1 / 16) % 16 == b1 / 16
    ensures ((b1 % 16) * 4 + b2 / 64) / 4 == b1 % 16
    ensures ((b1 % 16) * 4 + b2 / 64) % 4 == b2 / 64
  {
    assert b1 / 16 < 16;
    assert b2 / 64 < 4;
  }

  lemma DecodeQuad(b0: byte, b1: byte, b2: byte, last: bool)
    ensures DecodeGroup(Quad(b0, b1, b2), last) == Some([b0, b1, b2])
  {
    QuadBits(b0, b1, b2);
    HighLow(b0, 4);
    HighLow(b1, 16);
    HighLow(b2, 64);
  }

  lemma DecodeSingle(b0: byte)
    ensures DecodeGroup([Letter(b0 / 4), Letter((b0 % 4) * 16), '=', '='], true) == Some([b0])
  {
    HighLow(b0, 4);
  }

  lemma DecodePair(b0: byte, b1: byte)
    ensures DecodeGroup([Letter(b0 / 4), Letter((b0 % 4) * 16 + b1 / 16), Letter((b1 % 16) * 4), '='], true)
            == Some([b0, b1])
  {
    QuadBits(b0, b1, 0);
    HighLow(b0, 4);
    HighLow(b1, 16);
  }

  lemma DecodeLastGroup(s: string)
    requires |s| == 4
    ensures Decode(s) == DecodeGroup(s, true)
  {
    assert s[..4] == s;
    assert Decode(s[4..]) == Some([]);
    match DecodeGroup(s, true)
    case None =>
    case Some(h) => assert h + [] == h;
  }

  lemma DecodeNextGroup(s: string, head: seq<byte>, tail: seq<byte>)
    requires |s| > 4
    requires DecodeGroup(s[..4], false) == Some(head) && Decode(s[4..]) == Some(tail)
    ensures Decode(s) == Some(head + tail)
  {
  }

  lemma DecodeEncodeOne(b: seq<byte>)
    requires |b| == 1
    ensures Decode(Encode(b)) == Some(b)
  {
    DecodeLastGroup(Encode(b));
    DecodeSingle(b[0]);
    assert b == [b[0]];
  }

  lemma DecodeEncodeTwo(b: seq<byte>)
    requires |b| == 2
    ensures Decode(Encode(b)) == Some(b)
  {
    var e := [Letter(b[0] / 4), Letter((b[0] % 4) * 16 + b[1] / 16), Letter((b[1] % 16) * 4), '='];
    assert Encode(b) == e;
    DecodeLastGroup(e);
    DecodePair(b[0], b[1]);
    FirstTwo(b);
  }

  /** Decoding an encoding gives back the bytes. */
  lemma {:induction false} DecodeEncode(b: seq<byte>)
    ensures Decode(Encode(b)) == Some(b)
    decreases |b|
  {
    if |b| == 0 {
    } else if |b| == 1 {
      DecodeEncodeOne(b);
    } else if |b| == 2 {
      DecodeEncodeTwo(b);
    } else {
      DecodeEncode(b[3..]);
      DecodeEncodeGroup(b);
    }
  }

  /** A whole group of three bytes in front of an encoding that decodes. */
  lemma DecodeEncodeGroup(b: seq<byte>)
    requires |b| >= 3 && Decode(Encode(b[3..])) == Some(b[3..])
    ensures Decode(Encode(b)) == Some(b)
  {
    var q := Quad(b[0], b[1], b[2]);
    var rest := Encode(b[3..]);
    assert Encode(b) == q + rest;
    FirstThree(b);
    if |rest| == 0 {
      assert q + rest == q;
      DecodeQuad(b[0], b[1], b[2], true);
      DecodeLastGroup(q);
    } else {
      DecodeQuad(b[0], b[1], b[2], false);
      DecodeFrontGroup(q, rest, [b[0], b[1], b[2]], b[3..]);
    }
  }

  lemma FirstTwo<T>(b: seq<T>)
    requires |b| == 2
    ensures b == [b[0], b[1]]
  {
  }

  lemma FirstThree<T>(b: seq<T>)
    requires |b| >= 3
    ensures [b[0], b[1], b[2]] + b[3..] == b
  {
  }

  lemma DecodeFrontGroup(q: string, rest: string, head: seq<byte>, tail: seq<byte>)
    requires |q| == 4 && |rest| > 0
    requires DecodeGroup(q, false) == Some(head) && Decode(rest) == Some(tail)
    ensures Decode(q + rest) == Some(head + tail)
  {
    var s := q + rest;
    assert s[..4] == q;
    assert s[4..] == rest;
  }

  /** Different byte strings have different encodings. */
  lemma EncodeInjective(a: seq<byte>, b: seq<byte>)
    ensures Encode(a) == Encode(b) ==> a == b
  {
    DecodeEncode(a);
    DecodeEncode(b);
  }
}
