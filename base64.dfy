/**
 * Base 64 encoding as in section 4 of RFC 4648 (the standard alphabet, with
 * `=` padding), which is what `Buffer.toString('base64')` produces, and a
 * decoder that undoes it.
 */
module Base64 {
  import opened Wrappers

  type Byte = x: int | 0 <= x < 256

  /** A 6-bit value: the position of a symbol in the alphabet. */
  type Index = x: int | 0 <= x < 64

  /** The characters an encoding is made of: the 64 symbols and the pad character. */
  predicate IsEncodingChar(c: char) {
    ('A' <= c <= 'Z') || ('a' <= c <= 'z') || ('0' <= c <= '9') || c == '+' || c == '/' || c == '='
  }

  /** Position of a symbol in the alphabet (Table 1 of RFC 4648). */
  function IndexOf(c: char): Option<Index> {
    if 'A' <= c <= 'Z' then Some(c as int - 'A' as int)
    else if 'a' <= c <= 'z' then Some(c as int - 'a' as int + 26)
    else if '0' <= c <= '9' then Some(c as int - '0' as int + 52)
    else if c == '+' then Some(62)
    else if c == '/' then Some(63)
    else None
  }

  /** The symbol with a given position in the alphabet. */
  function Symbol(i: Index): (c: char)
    ensures IsEncodingChar(c) && c != '='
    ensures IndexOf(c) == Some(i)
  {
    if i < 26 then ('A' as int + i) as char
    else if i < 52 then ('a' as int + i - 26) as char
    else if i < 62 then ('0' as int + i - 52) as char
    else if i == 62 then '+'
    else '/'
  }

  predicate IsEncoding(s: string) {
    forall k :: 0 <= k < |s| ==> IsEncodingChar(s[k])
  }

  /** The four 6-bit groups of three bytes, most significant bits first. */
  function Quantum(a: Byte, b: Byte, c: Byte): string {
    [Symbol(a / 4), Symbol((a % 4) * 16 + b / 16), Symbol((b % 16) * 4 + c / 64), Symbol(c % 64)]
  }

  /** Encodes `bytes`, three at a time; a final group of one or two bytes is padded with `=`. */
  function Encode(bytes: seq<Byte>): (s: string)
    ensures |s| == 4 * ((|bytes| + 2) / 3)
    ensures IsEncoding(s)
  {
    if |bytes| == 0 then ""
    else if |bytes| == 1 then
      [Symbol(bytes[0] / 4), Symbol((bytes[0] % 4) * 16)] + "=="
    else if |bytes| == 2 then
      [Symbol(bytes[0] / 4), Symbol((bytes[0] % 4) * 16 + bytes[1] / 16), Symbol((bytes[1] % 16) * 4)] + "="
    else
      Quantum(bytes[0], bytes[1], bytes[2]) + Encode(bytes[3..])
  }

  /** The byte made of all six bits of `i0` and the top two bits of `i1`. */
  function First(i0: Index, i1: Index): Byte {
    (i0 as int) * 4 + (i1 as int) / 16
  }

  /** The byte made of the low four bits of `i1` and the top four bits of `i2`. */
  function Second(i1: Index, i2: Index): Byte {
    ((i1 as int) % 16) * 16 + (i2 as int) / 4
  }

  /** The byte made of the low two bits of `i2` and all six bits of `i3`. */
  function Third(i2: Index, i3: Index): Byte {
    ((i2 as int) % 4) * 64 + (i3 as int)
  }

  /** Decodes one group of four characters; only `=`-padded groups yield fewer than three bytes. */
  function DecodeGroup(g: string): Option<seq<Byte>>
    requires |g| == 4
  {
    match (IndexOf(g[0]), IndexOf(g[1]), IndexOf(g[2]), IndexOf(g[3]))
    case (Some(i0), Some(i1), None, None) =>
      if g[2] == '=' && g[3] == '=' then Some([First(i0, i1)]) else None
    case (Some(i0), Some(i1), Some(i2), None) =>
      if g[3] == '=' then Some([First(i0, i1), Second(i1, i2)]) else None
    case (Some(i0), Some(i1), Some(i2), Some(i3)) =>
      Some([First(i0, i1), Second(i1, i2), Third(i2, i3)])
    case _ => None
  }

  /** Decodes a padded encoding; padding may only end the last group. */
  function Decode(s: string): Option<seq<Byte>> {
    if s == "" then Some([])
    else if |s| < 4 then None
    else if |s| == 4 then DecodeGroup(s)
    else
      match (DecodeGroup(s[..4]), Decode(s[4..]))
      case (Some(head), Some(tail)) => if |head| == 3 then Some(head + tail) else None
      case _ => None
  }

  lemma QuantumRoundTrip(a: Byte, b: Byte, c: Byte)
    ensures DecodeGroup(Quantum(a, b, c)) == Some([a, b, c])
  {
    var i1 := (a % 4) * 16 + b / 16;
    var i2 := (b % 16) * 4 + c / 64;
    assert i1 / 16 == a % 4 && i1 % 16 == b / 16;
    assert i2 / 4 == b % 16 && i2 % 4 == c / 64;
  }

  lemma OneByteRoundTrip(a: Byte)
    ensures Decode(Encode([a])) == Some([a])
  {
    var i1 := (a % 4) * 16;
    assert i1 / 16 == a % 4;
    assert First(a / 4, i1) == a;
  }

  lemma TwoBytesRoundTrip(a: Byte, b: Byte)
    ensures Decode(Encode([a, b])) == Some([a, b])
  {
    var i1 := (a % 4) * 16 + b / 16;
    var i2 := (b % 16) * 4;
    assert i1 / 16 == a % 4 && i1 % 16 == b / 16;
    assert i2 / 4 == b % 16;
    assert First(a / 4, i1) == a && Second(i1, i2) == b;
    var g := Encode([a, b]);
    assert g == [Symbol(a / 4), Symbol(i1), Symbol(i2), '='];
    assert DecodeGroup(g) == Some([a, b]);
  }

  lemma ThreeBytesRoundTrip(a: Byte, b: Byte, c: Byte)
    ensures Decode(Encode([a, b, c])) == Some([a, b, c])
  {
    var q := Quantum(a, b, c);
    QuantumRoundTrip(a, b, c);
    assert [a, b, c][3..] == [];
    assert Encode([a, b, c]) == q + Encode([]);
    assert Encode([a, b, c]) == q;
  }

  lemma SplitThree<T>(xs: seq<T>)
    requires |xs| >= 3
    ensures xs == [xs[0], xs[1], xs[2]] + xs[3..]
  {
  }

  /** Decoding a string that starts with a full group. */
  lemma DecodeFront(s: string, head: seq<Byte>, tail: seq<Byte>)
    requires |s| > 4 && DecodeGroup(s[..4]) == Some(head) && |head| == 3
    requires Decode(s[4..]) == Some(tail)
    ensures Decode(s) == Some(head + tail)
  {
  }

  /** A full group in front of an encoding that decodes decodes along with it. */
  lemma QuantumThenRest(bytes: seq<Byte>)
    requires |bytes| > 3
    requires Decode(Encode(bytes[3..])) == Some(bytes[3..])
    ensures Decode(Encode(bytes)) == Some(bytes)
  {
    var s := Encode(bytes);
    var rest := Encode(bytes[3..]);
    var q := Quantum(bytes[0], bytes[1], bytes[2]);
    QuantumRoundTrip(bytes[0], bytes[1], bytes[2]);
    assert s == q + rest;
    assert s[..4] == q && s[4..] == rest;
    DecodeFront(s, [bytes[0], bytes[1], bytes[2]], bytes[3..]);
    SplitThree(bytes);
  }

  /** Decoding an encoding gives back the bytes that were encoded. */
  lemma {:induction false} DecodeEncode(bytes: seq<Byte>)
    ensures Decode(Encode(bytes)) == Some(bytes)
  {
    if |bytes| == 1 {
      assert bytes == [bytes[0]];
      OneByteRoundTrip(bytes[0]);
    } else if |bytes| == 2 {
      assert bytes == [bytes[0], bytes[1]];
      TwoBytesRoundTrip(bytes[0], bytes[1]);
    } else if |bytes| == 3 {
      assert bytes == [bytes[0], bytes[1], bytes[2]];
      ThreeBytesRoundTrip(bytes[0], bytes[1], bytes[2]);
    } else if |bytes| > 3 {
      DecodeEncode(bytes[3..]);
      QuantumThenRest(bytes);
    }
  }
}
