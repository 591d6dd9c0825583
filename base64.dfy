/**
 * `encode_base64` / `decode_base64`: the standard base64 alphabet and
 * padding of section 4 of RFC 4648. Encoding is total; decoding is exact on
 * canonical text (what the encoder produces) and is left to the library's
 * lenient decoder elsewhere, whose failure becomes a ValueError.
 */
module Base64 {
  import opened Common
  import opened Text
  import opened Crypto

  /** The 64 characters of the alphabet: A-Z, a-z, 0-9, '+', '/'. */
  predicate IsBase64Char(c: char) {
    ('A' <= c <= 'Z') || ('a' <= c <= 'z') || ('0' <= c <= '9') || c == '+' || c == '/'
  }

  /** The character for a 6-bit value. */
  function Char64(x: int): (c: char)
    requires 0 <= x < 64
    ensures IsBase64Char(c)
  {
    if x < 26 then (x + 65) as char
    else if x < 52 then (x - 26 + 97) as char
    else if x < 62 then (x - 52 + 48) as char
    else if x == 62 then '+'
    else '/'
  }

  /** The 6-bit value of an alphabet character. */
  function Value64(c: char): (x: int)
    requires IsBase64Char(c)
    ensures 0 <= x < 64 && Char64(x) == c
  {
    if 'A' <= c <= 'Z' then c as int - 65
    else if 'a' <= c <= 'z' then c as int - 97 + 26
    else if '0' <= c <= '9' then c as int - 48 + 52
    else if c == '+' then 62
    else 63
  }

  lemma Value64OfChar64(x: int)
    requires 0 <= x < 64
    ensures Value64(Char64(x)) == x
  {
  }

  /** Three bytes as four characters. */
  function EncodeBlock(b0: byte, b1: byte, b2: byte): (q: string)
    ensures |q| == 4 && IsFullQuad(q)
  {
    [Char64(b0 / 4), Char64((b0 % 4) * 16 + b1 / 16), Char64((b1 % 16) * 4 + b2 / 64), Char64(b2 % 64)]
  }

  /** The last one or two bytes, padded with '=' to four characters. */
  function EncodeTail(tail: Bytes): (q: string)
    requires 1 <= |tail| <= 2
    ensures |q| == 4 && forall i :: 0 <= i < 4 ==> IsBase64Char(q[i]) || q[i] == '='
  {
    if |tail| == 1 then [Char64(tail[0] / 4), Char64((tail[0] % 4) * 16), '=', '=']
    else [Char64(tail[0] / 4), Char64((tail[0] % 4) * 16 + tail[1] / 16), Char64((tail[1] % 16) * 4), '=']
  }

  /** `base64.b64encode(data).decode('utf-8')`. */
  function EncodeBase64(data: Bytes): (s: string)
    ensures |s| == 4 * ((|data| + 2) / 3)
    decreases |data|
  {
    if |data| >= 3 then
      var block := EncodeBlock(data[0], data[1], data[2]);
      var rest := EncodeBase64(data[3..]);
      assert (|data| - 3 + 2) / 3 + 1 == (|data| + 2) / 3;
      block + rest
    else if |data| == 0 then ""
    else EncodeTail(data)
  }

  /** The encoder writes only alphabet characters and '='. */
  lemma {:induction false} EncodeAlphabet(data: Bytes)
    ensures forall i :: 0 <= i < |EncodeBase64(data)| ==> IsBase64Char(EncodeBase64(data)[i]) || EncodeBase64(data)[i] == '='
    decreases |data|
  {
    if |data| >= 3 {
      var block := EncodeBlock(data[0], data[1], data[2]);
      var rest := EncodeBase64(data[3..]);
      EncodeAlphabet(data[3..]);
      assert EncodeBase64(data) == block + rest;
      forall i | 0 <= i < |block + rest| ensures IsBase64Char((block + rest)[i]) || (block + rest)[i] == '=' {
        if i < 4 {
          assert (block + rest)[i] == block[i];
          assert IsFullQuad(block);
          assert i == 0 || i == 1 || i == 2 || i == 3;
        } else {
          assert (block + rest)[i] == rest[i - 4];
        }
      }
    }
  }

  /** The encoder's output is ASCII text. */
  lemma EncodeIsAscii(data: Bytes)
    ensures IsAscii(EncodeBase64(data))
  {
    EncodeAlphabet(data);
  }

  predicate IsFullQuad(q: string)
    requires |q| == 4
  {
    IsBase64Char(q[0]) && IsBase64Char(q[1]) && IsBase64Char(q[2]) && IsBase64Char(q[3])
  }

  /** A last group: four alphabet characters, or padding whose unused bits are zero. */
  predicate IsFinalQuad(q: string)
    requires |q| == 4
  {
    || IsFullQuad(q)
    || (IsBase64Char(q[0]) && IsBase64Char(q[1]) && Value64(q[1]) % 16 == 0 && q[2] == '=' && q[3] == '=')
    || (IsBase64Char(q[0]) && IsBase64Char(q[1]) && IsBase64Char(q[2]) && Value64(q[2]) % 4 == 0 && q[3] == '=')
  }

  /** Canonical base64 text: groups of four, padding only in the last group, unused bits zero. */
  predicate IsCanonical(s: string)
    decreases |s|
  {
    if |s| == 0 then true
    else if |s| < 4 then false
    else if |s| == 4 then IsFinalQuad(s)
    else IsFullQuad(s[..4]) && IsCanonical(s[4..])
  }

  function DecodeQuad(q: string): (b: Bytes)
    requires |q| == 4 && IsFinalQuad(q)
    ensures 1 <= |b| <= 3
  {
    var n0, n1 := Value64(q[0]), Value64(q[1]);
    if q[2] == '=' then [n0 * 4 + n1 / 16]
    else
      var n2 := Value64(q[2]);
      if q[3] == '=' then [n0 * 4 + n1 / 16, (n1 % 16) * 16 + n2 / 4]
      else [n0 * 4 + n1 / 16, (n1 % 16) * 16 + n2 / 4, (n2 % 4) * 64 + Value64(q[3])]
  }

  /** `base64.b64decode` on canonical text. */
  function DecodeCanonical(s: string): Bytes
    requires IsCanonical(s)
    decreases |s|
  {
    if |s| == 0 then []
    else if |s| == 4 then DecodeQuad(s)
    else DecodeQuad(s[..4]) + DecodeCanonical(s[4..])
  }

  const MsgBase64Failed := "base64 decoding failed: "
  const MsgNonAscii := "string argument should contain only ASCII characters"
  const MsgIncorrectPadding := "Incorrect padding"

  /**
   * `decode_base64`: `base64.b64decode(text)`, with every failure raised as
   * ValueError. Text with a non-ASCII character is refused; canonical text
   * decodes exactly; other ASCII text goes to the library's lenient decoder.
   */
  function DecodeBase64(lib: Primitives, text: string): (r: Result<Bytes>)
    ensures r.Err? ==> r.error.kind == ValueError
    ensures !IsAscii(text) ==> r.Err?
  {
    if !IsAscii(text) then Err(Error(ValueError, MsgBase64Failed + MsgNonAscii))
    else if IsCanonical(text) then Ok(DecodeCanonical(text))
    else
      match lib.b64decodeLenient(text)
      case Some(data) => Ok(data)
      case None => Err(Error(ValueError, MsgBase64Failed + MsgIncorrectPadding))
  }

  lemma DecodeEncodeBlock(b0: byte, b1: byte, b2: byte)
    ensures IsFullQuad(EncodeBlock(b0, b1, b2)) && IsFinalQuad(EncodeBlock(b0, b1, b2))
    ensures DecodeQuad(EncodeBlock(b0, b1, b2)) == [b0, b1, b2]
  {
    var c1 := (b0 % 4) * 16 + b1 / 16;
    var c2 := (b1 % 16) * 4 + b2 / 64;
    var c3 := b2 % 64;
    Value64OfChar64(b0 / 4);
    Value64OfChar64(c1);
    Value64OfChar64(c2);
    Value64OfChar64(c3);
    Unpack(b0 % 4, b1 / 16, 16);
    Unpack(b1 % 16, b2 / 64, 4);
    assert (b0 / 4) * 4 + c1 / 16 == b0;
    assert (c1 % 16) * 16 + c2 / 4 == b1;
    assert (c2 % 4) * 64 + c3 == b2;
  }

  /** Splitting `x * m + y` back into `x` and `y`, for the three widths base64 packs. */
  lemma Unpack(x: int, y: int, m: int)
    requires m == 4 || m == 16 || m == 64
    requires 0 <= y < m
    ensures (x * m + y) / m == x && (x * m + y) % m == y
  {
  }

  lemma DecodeEncodeTail1(b0: byte)
    ensures IsFinalQuad(EncodeTail([b0])) && DecodeQuad(EncodeTail([b0])) == [b0]
  {
    var hi, lo := b0 / 4, b0 % 4;
    Value64OfChar64(hi);
    Value64OfChar64(lo * 16);
    Unpack(lo, 0, 16);
    assert hi * 4 + (lo * 16) / 16 == b0;
  }

  lemma DecodeEncodeTail2(b0: byte, b1: byte)
    ensures IsFinalQuad(EncodeTail([b0, b1])) && DecodeQuad(EncodeTail([b0, b1])) == [b0, b1]
  {
    var c0 := b0 / 4;
    var c1 := (b0 % 4) * 16 + b1 / 16;
    var c2 := (b1 % 16) * 4;
    var q := EncodeTail([b0, b1]);
    assert q == [Char64(c0), Char64(c1), Char64(c2), '='];
    Value64OfChar64(c0);
    Value64OfChar64(c1);
    Value64OfChar64(c2);
    assert Value64(q[0]) == c0 && Value64(q[1]) == c1 && Value64(q[2]) == c2;
    Unpack(b0 % 4, b1 / 16, 16);
    Unpack(b1 % 16, 0, 4);
    assert c0 * 4 + c1 / 16 == b0;
    assert (c1 % 16) * 16 + c2 / 4 == b1;
    assert DecodeQuad(q) == [c0 * 4 + c1 / 16, (c1 % 16) * 16 + c2 / 4];
  }

  lemma DecodeEncodeTail(tail: Bytes)
    requires 1 <= |tail| <= 2
    ensures IsFinalQuad(EncodeTail(tail)) && DecodeQuad(EncodeTail(tail)) == tail
  {
    if |tail| == 1 {
      assert tail == [tail[0]];
      DecodeEncodeTail1(tail[0]);
    } else {
      assert tail == [tail[0], tail[1]];
      DecodeEncodeTail2(tail[0], tail[1]);
    }
  }

  /** A full group decodes to three bytes that encode back to it. */
  lemma EncodeDecodeFullQuad(q: string)
    requires |q| == 4 && IsFullQuad(q)
    ensures var b := DecodeQuad(q); |b| == 3 && EncodeBlock(b[0], b[1], b[2]) == q
  {
    var n0, n1, n2, n3 := Value64(q[0]), Value64(q[1]), Value64(q[2]), Value64(q[3]);
    var b0, b1, b2 := n0 * 4 + n1 / 16, (n1 % 16) * 16 + n2 / 4, (n2 % 4) * 64 + n3;
    assert DecodeQuad(q) == [b0, b1, b2];
    Unpack(n0, n1 / 16, 4);
    Unpack(n1 % 16, n2 / 4, 16);
    Unpack(n2 % 4, n3, 64);
    assert b0 / 4 == n0;
    assert (b0 % 4) * 16 + b1 / 16 == n1;
    assert (b1 % 16) * 4 + b2 / 64 == n2;
    assert b2 % 64 == n3;
    var e := EncodeBlock(b0, b1, b2);
    assert e[0] == Char64(n0) == q[0] && e[1] == Char64(n1) == q[1];
    assert e[2] == Char64(n2) == q[2] && e[3] == Char64(n3) == q[3];
    SameFour(e, q);
  }

  /** Two strings of four characters that agree at every position are equal. */
  lemma SameFour(a: string, b: string)
    requires |a| == 4 && |b| == 4
    requires a[0] == b[0] && a[1] == b[1] && a[2] == b[2] && a[3] == b[3]
    ensures a == b
  {
    assert forall i :: 0 <= i < 4 ==> a[i] == b[i] by {
      forall i | 0 <= i < 4 ensures a[i] == b[i] {
        assert i == 0 || i == 1 || i == 2 || i == 3;
      }
    }
  }

  /** A padded last group decodes to one or two bytes that encode back to it. */
  lemma EncodeDecodePaddedQuad(q: string)
    requires |q| == 4 && IsFinalQuad(q) && q[3] == '='
    ensures var b := DecodeQuad(q); |b| <= 2 && EncodeTail(b) == q
  {
    var n0, n1 := Value64(q[0]), Value64(q[1]);
    var b0 := n0 * 4 + n1 / 16;
    Unpack(n0, n1 / 16, 4);
    if q[2] == '=' {
      assert DecodeQuad(q) == [b0];
      assert n1 == (n1 / 16) * 16;
      assert (b0 % 4) * 16 == n1;
    } else {
      var n2 := Value64(q[2]);
      var b1 := (n1 % 16) * 16 + n2 / 4;
      assert DecodeQuad(q) == [b0, b1];
      Unpack(n1 % 16, n2 / 4, 16);
      assert n2 == (n2 / 4) * 4;
      assert (b0 % 4) * 16 + b1 / 16 == n1;
      assert (b1 % 16) * 4 == n2;
    }
  }

  /** A full group in front of canonical non-empty text keeps it canonical, and decodes group by group. */
  lemma CanonicalCons(q: string, rest: string, b: Bytes, restData: Bytes)
    requires |q| == 4 && IsFullQuad(q) && DecodeQuad(q) == b
    requires IsCanonical(rest) && rest != "" && DecodeCanonical(rest) == restData
    ensures IsCanonical(q + rest)
    ensures DecodeCanonical(q + rest) == b + restData
  {
    assert (q + rest)[..4] == q && (q + rest)[4..] == rest;
  }

  /** A byte string of three or more is its first three bytes followed by the rest. */
  lemma SplitThree(s: Bytes)
    requires |s| >= 3
    ensures s == [s[0], s[1], s[2]] + s[3..]
  {
  }

  /** Three bytes encode to exactly one group. */
  lemma EncodeOfThree(data: Bytes)
    requires |data| == 3
    ensures EncodeBase64(data) == EncodeBlock(data[0], data[1], data[2])
  {
    var block := EncodeBlock(data[0], data[1], data[2]);
    assert EncodeBase64(data[3..]) == "";
    assert block + "" == block;
  }

  /** A byte string of length three is its three bytes. */
  lemma ExactlyThree(s: Bytes)
    requires |s| == 3
    ensures s == [s[0], s[1], s[2]]
  {
  }

  /** Exactly three bytes encode to one full group. */
  lemma DecodeEncodeThree(data: Bytes)
    requires |data| == 3
    ensures IsCanonical(EncodeBase64(data)) && DecodeCanonical(EncodeBase64(data)) == data
  {
    EncodeOfThree(data);
    DecodeEncodeBlock(data[0], data[1], data[2]);
    ExactlyThree(data);
  }

  /** Three or more bytes encode as their first group followed by the rest's encoding. */
  lemma EncodeStep(data: Bytes)
    requires |data| >= 3
    ensures EncodeBase64(data) == EncodeBlock(data[0], data[1], data[2]) + EncodeBase64(data[3..])
  {
  }

  /** One step of the encoder: a group of three bytes in front of a non-empty rest. */
  lemma DecodeEncodeStep(data: Bytes)
    requires |data| > 3
    requires IsCanonical(EncodeBase64(data[3..])) && DecodeCanonical(EncodeBase64(data[3..])) == data[3..]
    ensures IsCanonical(EncodeBase64(data)) && DecodeCanonical(EncodeBase64(data)) == data
  {
    var rest := data[3..];
    var head := [data[0], data[1], data[2]];
    var block := EncodeBlock(data[0], data[1], data[2]);
    var text := EncodeBase64(rest);
    assert text != "" by {
      assert |text| == 4 * ((|rest| + 2) / 3) && (|rest| + 2) / 3 >= 1;
    }
    DecodeEncodeBlock(data[0], data[1], data[2]);
    CanonicalCons(block, text, head, rest);
    EncodeStep(data);
    SplitThree(data);
  }

  /** The encoder produces canonical text, and decoding it gives the bytes back. */
  lemma {:induction false} DecodeEncode(data: Bytes)
    ensures IsCanonical(EncodeBase64(data))
    ensures DecodeCanonical(EncodeBase64(data)) == data
    decreases |data|
  {
    if |data| == 3 {
      DecodeEncodeThree(data);
    } else if |data| > 3 {
      DecodeEncode(data[3..]);
      DecodeEncodeStep(data);
    } else if |data| > 0 {
      DecodeEncodeTail(data);
    }
  }

  /** Three bytes in front of more encode as their group in front of the rest's encoding. */
  lemma EncodeCons(b: Bytes, rest: Bytes)
    requires |b| == 3
    ensures EncodeBase64(b + rest) == EncodeBlock(b[0], b[1], b[2]) + EncodeBase64(rest)
  {
    var all := b + rest;
    assert all[0] == b[0] && all[1] == b[1] && all[2] == b[2];
    assert all[3..] == rest;
  }

  /** A text of more than four characters is its first group followed by the rest. */
  lemma SplitFour(s: string)
    requires |s| > 4
    ensures s == s[..4] + s[4..]
  {
  }

  /** A last group is the encoding of what it decodes to. */
  lemma EncodeDecodeLast(q: string)
    requires |q| == 4 && IsFinalQuad(q)
    ensures IsCanonical(q) && EncodeBase64(DecodeCanonical(q)) == q
  {
    var b := DecodeQuad(q);
    if q[3] == '=' {
      EncodeDecodePaddedQuad(q);
    } else {
      EncodeDecodeFullQuad(q);
      EncodeOfThree(b);
    }
  }

  /** Canonical text is exactly the encoding of what it decodes to. */
  lemma {:induction false} EncodeDecode(s: string)
    requires IsCanonical(s)
    ensures EncodeBase64(DecodeCanonical(s)) == s
    decreases |s|
  {
    if |s| == 4 {
      EncodeDecodeLast(s);
    } else if |s| > 4 {
      var q := s[..4];
      EncodeDecodeFullQuad(q);
      EncodeDecode(s[4..]);
      EncodeCons(DecodeQuad(q), DecodeCanonical(s[4..]));
      SplitFour(s);
    }
  }

  /** The round trip `decode_base64(encode_base64(b)) == b`. */
  lemma DecodeBase64OfEncode(lib: Primitives, data: Bytes)
    ensures DecodeBase64(lib, EncodeBase64(data)) == Ok(data)
  {
    DecodeEncode(data);
    EncodeIsAscii(data);
  }
}
