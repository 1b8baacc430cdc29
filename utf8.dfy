/**
 * UTF-8 encoding of Unicode scalar values, as described in section 3 of
 * RFC 3629. The terminal engine turns every cell's codepoint into 1 to 4
 * bytes with libtsm's tsm_ucs4_to_utf8; that function is not part of this
 * model, so it is modelled here by the RFC's encoder, and a validating
 * decoder is its partner for the round-trip lemmas.
 */
module Utf8 {

  type byte = b: int | 0 <= b < 0x100

  /** A Unicode scalar value: a codepoint that is not a surrogate. */
  type Scalar = c: int | 0 <= c < 0xD800 || 0xE000 <= c < 0x11_0000

  datatype Option<T> = None | Some(value: T)

  /** The number of bytes RFC 3629 uses for `cp`. */
  function Width(cp: Scalar): (n: nat)
    ensures 1 <= n <= 4
  {
    if cp < 0x80 then 1
    else if cp < 0x800 then 2
    else if cp < 0x1_0000 then 3
    else 4
  }

  predicate IsContinuation(b: byte) {
    0x80 <= b < 0xC0
  }

  /** The UTF-8 byte sequence of one scalar value. */
  function Encode(cp: Scalar): (r: seq<byte>)
    ensures |r| == Width(cp)
    ensures 1 <= |r| <= 4
  {
    if cp < 0x80 then
      [cp]
    else if cp < 0x800 then
      [0xC0 + cp / 64, 0x80 + cp % 64]
    else if cp < 0x1_0000 then
      var q := cp / 64;
      [0xE0 + q / 64, 0x80 + q % 64, 0x80 + cp % 64]
    else
      var q := cp / 64;
      var q2 := q / 64;
      [0xF0 + q2 / 64, 0x80 + q2 % 64, 0x80 + q % 64, 0x80 + cp % 64]
  }

  /** The concatenated encodings of a sequence of scalar values. */
  function EncodeAll(cps: seq<Scalar>): (r: seq<byte>)
  {
    if cps == [] then [] else Encode(cps[0]) + EncodeAll(cps[1..])
  }

  /**
   * Decodes the first scalar value of `bs` and says how many bytes it took.
   * Rejects stray continuation bytes, truncated sequences, overlong forms,
   * surrogates and values above U+10FFFF.
   */
  function DecodeFirst(bs: seq<byte>): (r: Option<(Scalar, nat)>)
    ensures r.Some? ==> 1 <= r.value.1 <= |bs| && r.value.1 <= 4
  {
    if |bs| == 0 then None
    else if bs[0] < 0x80 then Some((bs[0], 1))
    else if bs[0] < 0xC0 then None
    else if bs[0] < 0xE0 then
      if |bs| < 2 || !IsContinuation(bs[1]) then None
      else
        var cp: int := (bs[0] as int - 0xC0) * 64 + (bs[1] as int - 0x80);
        if cp < 0x80 then None else Some((cp, 2))
    else if bs[0] < 0xF0 then
      if |bs| < 3 || !IsContinuation(bs[1]) || !IsContinuation(bs[2]) then None
      else
        var cp: int := (bs[0] as int - 0xE0) * 4096 + (bs[1] as int - 0x80) * 64 + (bs[2] as int - 0x80);
        if cp < 0x800 || (0xD800 <= cp < 0xE000) then None else Some((cp, 3))
    else if bs[0] < 0xF8 then
      if |bs| < 4 || !IsContinuation(bs[1]) || !IsContinuation(bs[2]) || !IsContinuation(bs[3]) then None
      else
        var cp: int := (bs[0] as int - 0xF0) * 262144 + (bs[1] as int - 0x80) * 4096
                        + (bs[2] as int - 0x80) * 64 + (bs[3] as int - 0x80);
        if cp < 0x1_0000 || cp >= 0x11_0000 then None else Some((cp, 4))
    else None
  }

  /** Decodes a whole byte string, or fails if any part of it is malformed. */
  function DecodeAll(bs: seq<byte>): (r: Option<seq<Scalar>>)
    decreases |bs|
  {
    if bs == [] then Some([])
    else
      match DecodeFirst(bs)
      case None => None
      case Some((cp, n)) =>
        match DecodeAll(bs[n..])
        case None => None
        case Some(rest) => Some([cp] + rest)
  }

  lemma DecodeEncode2(cp: Scalar, rest: seq<byte>)
    requires 0x80 <= cp < 0x800
    ensures DecodeFirst(Encode(cp) + rest) == Some((cp, 2))
  {
    var bs := Encode(cp) + rest;
    assert bs[0] == 0xC0 + cp / 64 && bs[1] == 0x80 + cp % 64;
  }

  lemma DecodeEncode3(cp: Scalar, rest: seq<byte>)
    requires 0x800 <= cp < 0x1_0000
    ensures DecodeFirst(Encode(cp) + rest) == Some((cp, 3))
  {
    var bs := Encode(cp) + rest;
    var q := cp / 64;
    assert cp == q * 64 + cp % 64;
    assert q == (q / 64) * 64 + q % 64;
    assert bs[0] == 0xE0 + q / 64 && bs[1] == 0x80 + q % 64 && bs[2] == 0x80 + cp % 64;
  }

  lemma DecodeEncode4(cp: Scalar, rest: seq<byte>)
    requires 0x1_0000 <= cp
    ensures DecodeFirst(Encode(cp) + rest) == Some((cp, 4))
  {
    var bs := Encode(cp) + rest;
    var q := cp / 64;
    var q2 := q / 64;
    assert cp == q * 64 + cp % 64;
    assert q == q2 * 64 + q % 64;
    assert q2 == (q2 / 64) * 64 + q2 % 64;
    assert bs[0] == 0xF0 + q2 / 64 && bs[1] == 0x80 + q2 % 64 && bs[2] == 0x80 + q % 64 && bs[3] == 0x80 + cp % 64;
  }

  /** Decoding the encoding of `cp` gives back `cp`, whatever follows it. */
  lemma DecodeEncode(cp: Scalar, rest: seq<byte>)
    ensures DecodeFirst(Encode(cp) + rest) == Some((cp, Width(cp)))
  {
    if cp < 0x80 {
    } else if cp < 0x800 {
      DecodeEncode2(cp, rest);
    } else if cp < 0x1_0000 {
      DecodeEncode3(cp, rest);
    } else {
      DecodeEncode4(cp, rest);
    }
  }

  /** Round trip: the decoder recovers every sequence of scalar values from its encoding. */
  lemma {:induction false} DecodeEncodeAll(cps: seq<Scalar>)
    ensures DecodeAll(EncodeAll(cps)) == Some(cps)
  {
    if cps != [] {
      var rest := EncodeAll(cps[1..]);
      DecodeEncode(cps[0], rest);
      assert (Encode(cps[0]) + rest)[Width(cps[0])..] == rest;
      DecodeEncodeAll(cps[1..]);
      assert [cps[0]] + cps[1..] == cps;
    }
  }

  /** Encoding distributes over concatenation, one value at the end. */
  lemma {:induction false} EncodeAllSnoc(cps: seq<Scalar>, cp: Scalar)
    ensures EncodeAll(cps + [cp]) == EncodeAll(cps) + Encode(cp)
  {
    if cps != [] {
      assert (cps + [cp])[1..] == cps[1..] + [cp];
      EncodeAllSnoc(cps[1..], cp);
    }
  }
}
