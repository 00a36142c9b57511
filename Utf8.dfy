/**
 * UTF-8 as defined in RFC 3629.
 *
 * `WellFormed` is the grammar of section 4 of RFC 3629 (`UTF8-octets = *( UTF8-char )`),
 * `Decode` is the validating decoder behind Rust's `core::str::from_utf8` (look at the
 * lead byte, then check the continuation bytes), and `Encode` is the encoding of section 3.
 * The lemmas at the end tie the three together.
 */
module Utf8 {
  import opened Results

  newtype byte = x: int | 0 <= x < 256

  // ---------------------------------------------------------------------------
  // The grammar of section 4 of RFC 3629
  // ---------------------------------------------------------------------------

  predicate InRange(b: byte, lo: int, hi: int) {
    lo <= b as int <= hi
  }

  /** UTF8-tail = %x80-BF */
  predicate Tail(b: byte) {
    InRange(b, 0x80, 0xBF)
  }

  /** UTF8-1 = %x00-7F */
  predicate Char1(c: seq<byte>) {
    |c| == 1 && InRange(c[0], 0x00, 0x7F)
  }

  /** UTF8-2 = %xC2-DF UTF8-tail */
  predicate Char2(c: seq<byte>) {
    |c| == 2 && InRange(c[0], 0xC2, 0xDF) && Tail(c[1])
  }

  /**
   * UTF8-3 = %xE0 %xA0-BF UTF8-tail / %xE1-EC 2( UTF8-tail ) /
   *          %xED %x80-9F UTF8-tail / %xEE-EF 2( UTF8-tail )
   */
  predicate Char3(c: seq<byte>) {
    |c| == 3 && Tail(c[2]) &&
    ((c[0] == 0xE0 && InRange(c[1], 0xA0, 0xBF)) ||
     (InRange(c[0], 0xE1, 0xEC) && Tail(c[1])) ||
     (c[0] == 0xED && InRange(c[1], 0x80, 0x9F)) ||
     (InRange(c[0], 0xEE, 0xEF) && Tail(c[1])))
  }

  /**
   * UTF8-4 = %xF0 %x90-BF 2( UTF8-tail ) / %xF1-F3 3( UTF8-tail ) /
   *          %xF4 %x80-8F 2( UTF8-tail )
   */
  predicate Char4(c: seq<byte>) {
    |c| == 4 && Tail(c[2]) && Tail(c[3]) &&
    ((c[0] == 0xF0 && InRange(c[1], 0x90, 0xBF)) ||
     (InRange(c[0], 0xF1, 0xF3) && Tail(c[1])) ||
     (c[0] == 0xF4 && InRange(c[1], 0x80, 0x8F)))
  }

  /** UTF8-char = UTF8-1 / UTF8-2 / UTF8-3 / UTF8-4 */
  predicate Utf8Char(c: seq<byte>) {
    Char1(c) || Char2(c) || Char3(c) || Char4(c)
  }

  /** `s` starts with a UTF8-char of `k` octets followed by well-formed octets. */
  predicate SplitsAt(s: seq<byte>, k: nat)
    decreases |s|, 0
  {
    1 <= k <= |s| && Utf8Char(s[..k]) && WellFormed(s[k..])
  }

  /** UTF8-octets = *( UTF8-char ) */
  predicate WellFormed(s: seq<byte>)
    decreases |s|, 1
  {
    s == [] || SplitsAt(s, 1) || SplitsAt(s, 2) || SplitsAt(s, 3) || SplitsAt(s, 4)
  }

  // ---------------------------------------------------------------------------
  // The decoder
  // ---------------------------------------------------------------------------

  /** The number of octets announced by a lead byte; 0 for a byte that cannot lead. */
  function Width(lead: byte): (w: nat)
    ensures w <= 4
  {
    if lead <= 0x7F then 1
    else if 0xC2 <= lead <= 0xDF then 2
    else if 0xE0 <= lead <= 0xEF then 3
    else if 0xF0 <= lead <= 0xF4 then 4
    else 0
  }

  /** The ranges allowed for the second octet of a three-octet character. */
  predicate SecondOfThree(lead: byte, b: byte) {
    (lead == 0xE0 && InRange(b, 0xA0, 0xBF)) ||
    (0xE1 <= lead <= 0xEC && Tail(b)) ||
    (lead == 0xED && InRange(b, 0x80, 0x9F)) ||
    (0xEE <= lead <= 0xEF && Tail(b))
  }

  /** The ranges allowed for the second octet of a four-octet character. */
  predicate SecondOfFour(lead: byte, b: byte) {
    (lead == 0xF0 && InRange(b, 0x90, 0xBF)) ||
    (0xF1 <= lead <= 0xF3 && Tail(b)) ||
    (lead == 0xF4 && InRange(b, 0x80, 0x8F))
  }

  /** The payload bits of a continuation octet. */
  function Low6(b: byte): int
    requires Tail(b)
  {
    b as int - 0x80
  }

  /**
   * Decodes the character at the front of `s`, giving the character and the
   * number of octets it occupies, or `None` when the front is not a character.
   */
  function DecodeChar(s: seq<byte>): (r: Option<(char, nat)>)
    requires s != []
    ensures r.Some? ==> 1 <= r.value.1 <= |s| && r.value.1 == Width(s[0])
  {
    var lead := s[0];
    var w := Width(lead);
    if w == 1 then
      Some(((lead as int) as char, 1))
    else if w == 0 || |s| < w then
      None
    else if w == 2 then
      if Tail(s[1]) then
        Some((((lead as int - 0xC0) * 64 + Low6(s[1])) as char, 2))
      else None
    else if w == 3 then
      if SecondOfThree(lead, s[1]) && Tail(s[2]) then
        Some((((lead as int - 0xE0) * 4096 + Low6(s[1]) * 64 + Low6(s[2])) as char, 3))
      else None
    else
      if SecondOfFour(lead, s[1]) && Tail(s[2]) && Tail(s[3]) then
        Some((((lead as int - 0xF0) * 262144 + Low6(s[1]) * 4096 + Low6(s[2]) * 64 + Low6(s[3])) as char, 4))
      else None
  }

  /** Decodes a whole octet sequence, or `None` if any part of it is not a character. */
  function Decode(s: seq<byte>): (r: Option<string>)
    decreases |s|
  {
    if s == [] then Some([])
    else
      match DecodeChar(s)
      case None => None
      case Some((c, w)) =>
        match Decode(s[w..])
        case None => None
        case Some(rest) => Some([c] + rest)
  }

  // ---------------------------------------------------------------------------
  // The encoder (section 3 of RFC 3629)
  // ---------------------------------------------------------------------------

  /** The octets that encode one character. */
  function EncodeChar(c: char): (bs: seq<byte>)
    ensures 1 <= |bs| <= 4
  {
    var cp := c as int;
    if cp < 0x80 then
      [cp as byte]
    else if cp < 0x800 then
      [(0xC0 + cp / 64) as byte, (0x80 + cp % 64) as byte]
    else if cp < 0x10000 then
      [(0xE0 + cp / 4096) as byte, (0x80 + cp / 64 % 64) as byte, (0x80 + cp % 64) as byte]
    else
      [(0xF0 + cp / 262144) as byte, (0x80 + cp / 4096 % 64) as byte,
       (0x80 + cp / 64 % 64) as byte, (0x80 + cp % 64) as byte]
  }

  /** The octets that encode a string, character by character. */
  function Encode(t: string): seq<byte>
  {
    if t == [] then [] else EncodeChar(t[0]) + Encode(t[1..])
  }

  // ---------------------------------------------------------------------------
  // One character: the encoder, the decoder and the grammar agree
  // ---------------------------------------------------------------------------

  /** The base-64 digits of a code point, as the encoder and the decoder use them. */
  lemma Digits(cp: int)
    requires 0 <= cp
    ensures cp / 4096 == cp / 64 / 64
    ensures cp / 262144 == cp / 4096 / 64
    ensures cp == cp / 64 * 64 + cp % 64
    ensures cp / 64 == cp / 4096 * 64 + cp / 64 % 64
    ensures cp / 4096 == cp / 262144 * 64 + cp / 4096 % 64
  {
  }

  /** Encoding a character gives a UTF8-char, and decoding it gives the character back. */
  lemma EncodeCharDecodes(c: char, rest: seq<byte>)
    ensures Utf8Char(EncodeChar(c))
    ensures DecodeChar(EncodeChar(c) + rest) == Some((c, |EncodeChar(c)|))
  {
    var cp := c as int;
    var s := EncodeChar(c) + rest;
    Digits(cp);
    if cp < 0x80 {
    } else if cp < 0x800 {
      assert s[0] as int == 0xC0 + cp / 64 && s[1] as int == 0x80 + cp % 64;
    } else if cp < 0x10000 {
      assert s[0] as int == 0xE0 + cp / 4096;
      assert s[1] as int == 0x80 + cp / 64 % 64 && s[2] as int == 0x80 + cp % 64;
    } else {
      assert s[0] as int == 0xF0 + cp / 262144;
      assert s[1] as int == 0x80 + cp / 4096 % 64;
      assert s[2] as int == 0x80 + cp / 64 % 64 && s[3] as int == 0x80 + cp % 64;
    }
  }

  /** Division by a power of 64 is determined by quotient and remainder. */
  lemma DivModUnique(n: int, d: int, q: int, r: int)
    requires d == 64 || d == 4096 || d == 262144
    requires 0 <= r < d && n == q * d + r
    ensures n / d == q && n % d == r
  {
  }

  /** The three payload fields of a three-octet character read back from its code point. */
  lemma Fields3(a: int, x: int, y: int)
    requires 0 <= a < 16 && 0 <= x < 64 && 0 <= y < 64
    ensures var cp := a * 4096 + x * 64 + y;
      cp / 4096 == a && cp / 64 % 64 == x && cp % 64 == y
  {
  }

  /** The four payload fields of a four-octet character read back from its code point. */
  lemma Fields4(a: int, x: int, y: int, z: int)
    requires 0 <= a < 8 && 0 <= x < 64 && 0 <= y < 64 && 0 <= z < 64
    ensures var cp := a * 262144 + x * 4096 + y * 64 + z;
      cp / 262144 == a && cp / 4096 % 64 == x && cp / 64 % 64 == y && cp % 64 == z
  {
  }

  /** Whatever `DecodeChar` accepts is exactly the encoding of the character it returns. */
  lemma DecodeCharEncodes(s: seq<byte>)
    requires s != [] && DecodeChar(s).Some?
    ensures s[..DecodeChar(s).value.1] == EncodeChar(DecodeChar(s).value.0)
  {
    var (c, w) := DecodeChar(s).value;
    if w == 2 {
      var a, x := s[0] as int - 0xC0, Low6(s[1]);
      DivModUnique(c as int, 64, a, x);
      assert EncodeChar(c) == [s[0], s[1]];
    } else if w == 3 {
      Fields3(s[0] as int - 0xE0, Low6(s[1]), Low6(s[2]));
      assert EncodeChar(c) == [s[0], s[1], s[2]];
    } else if w == 4 {
      Fields4(s[0] as int - 0xF0, Low6(s[1]), Low6(s[2]), Low6(s[3]));
      assert EncodeChar(c) == [s[0], s[1], s[2], s[3]];
    }
  }

  /** A UTF8-char at the front of `s` is what `DecodeChar` finds there, with its length. */
  lemma DecodeCharFindsChar(s: seq<byte>, k: nat)
    requires 1 <= k <= |s| && Utf8Char(s[..k])
    ensures DecodeChar(s).Some? && DecodeChar(s).value.1 == k
  {
  }

  // ---------------------------------------------------------------------------
  // Whole sequences
  // ---------------------------------------------------------------------------

  /** `Decode` accepts exactly the octet sequences that are well formed by section 4 of RFC 3629. */
  lemma {:induction false} DecodeAcceptsWellFormed(s: seq<byte>)
    ensures Decode(s).Some? <==> WellFormed(s)
    decreases |s|
  {
    if s != [] {
      if WellFormed(s) {
        var k: nat := if SplitsAt(s, 1) then 1 else if SplitsAt(s, 2) then 2 else if SplitsAt(s, 3) then 3 else 4;
        assert SplitsAt(s, k);
        DecodeCharFindsChar(s, k);
        DecodeAcceptsWellFormed(s[k..]);
      }
      if Decode(s).Some? {
        var (c, w) := DecodeChar(s).value;
        DecodeCharEncodes(s);
        EncodeCharDecodes(c, []);
        DecodeAcceptsWellFormed(s[w..]);
        assert SplitsAt(s, w);
      }
    }
  }

  /** Decoding the encoding of a string gives the string back. */
  lemma {:induction false} DecodeEncode(t: string)
    ensures Decode(Encode(t)) == Some(t)
  {
    if t != [] {
      var e := EncodeChar(t[0]);
      EncodeCharDecodes(t[0], Encode(t[1..]));
      DecodeEncode(t[1..]);
      assert Encode(t)[|e|..] == Encode(t[1..]);
      assert [t[0]] + t[1..] == t;
    }
  }

  /** Encoding what `Decode` returns gives the decoded octets back. */
  lemma {:induction false} EncodeDecode(s: seq<byte>)
    requires Decode(s).Some?
    ensures Encode(Decode(s).value) == s
    decreases |s|
  {
    if s != [] {
      var (c, w) := DecodeChar(s).value;
      DecodeCharEncodes(s);
      EncodeDecode(s[w..]);
      assert s == s[..w] + s[w..];
    }
  }

  /** Well-formed octet sequences are exactly the encodings of strings. */
  lemma WellFormedIffEncoding(s: seq<byte>)
    ensures WellFormed(s) <==> exists t: string :: Encode(t) == s
  {
    DecodeAcceptsWellFormed(s);
    if WellFormed(s) {
      EncodeDecode(s);
    }
    forall t: string | Encode(t) == s
      ensures WellFormed(s)
    {
      DecodeEncode(t);
    }
  }

  /**
   * A well-formed sequence neither starts with a continuation octet nor ends with a
   * lead octet: a character cut at either end of a buffer makes the buffer ill formed.
   */
  lemma {:induction false} WellFormedEnds(s: seq<byte>)
    requires WellFormed(s) && s != []
    ensures !Tail(s[0])
    ensures s[|s| - 1] as int <= 0xBF
    decreases |s|
  {
    var k: nat := if SplitsAt(s, 1) then 1 else if SplitsAt(s, 2) then 2 else if SplitsAt(s, 3) then 3 else 4;
    assert SplitsAt(s, k);
    assert s[..k][0] == s[0];
    if k == |s| {
      assert s[..k][k - 1] == s[|s| - 1];
    } else {
      WellFormedEnds(s[k..]);
    }
  }

  /**
   * In a well-formed sequence a byte that can lead a character does lead one, and
   * the whole character it announces lies inside the sequence.
   */
  lemma {:induction false} LeadHasRoom(s: seq<byte>, j: nat)
    requires WellFormed(s) && j < |s| && Width(s[j]) >= 1
    ensures j + Width(s[j]) <= |s|
    decreases |s|
  {
    var k: nat := if SplitsAt(s, 1) then 1 else if SplitsAt(s, 2) then 2 else if SplitsAt(s, 3) then 3 else 4;
    assert SplitsAt(s, k);
    if j < k {
      assert s[..k][j] == s[j];
      DecodeCharFindsChar(s, k);
    } else {
      assert s[k..][j - k] == s[j];
      LeadHasRoom(s[k..], j - k);
    }
  }
}
