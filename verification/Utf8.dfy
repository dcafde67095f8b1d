/** The UTF-8 bytes of a text of 16-bit code units, as they are hashed and signed, and a decoder
    from the definition of the encoding alone. */
module Utf8 {
  import opened Options
  import opened JsonText

  type Byte = b: int | 0 <= b < 256

  /** The first code point; a surrogate without its other half counts as U+FFFD. */
  function CodePoint(s: Text): (p: int)
    requires s != []
    ensures 0 <= p < 0x11_0000 && !(0xd800 <= p <= 0xdfff)
  {
    if Width(s) == 2 then 0x1_0000 + (s[0] as int - 0xd800) * 0x400 + (s[1] as int - 0xdc00)
    else if IsLead(s[0]) || IsTrail(s[0]) then 0xfffd
    else s[0]
  }

  function Bytes(p: int): seq<Byte>
    requires 0 <= p < 0x11_0000
  {
    if p < 0x80 then [p]
    else if p < 0x800 then [0xc0 + p / 64, 0x80 + p % 64]
    else if p < 0x1_0000 then [0xe0 + p / 64 / 64, 0x80 + p / 64 % 64, 0x80 + p % 64]
    else [0xf0 + p / 64 / 64 / 64, 0x80 + p / 64 / 64 % 64, 0x80 + p / 64 % 64, 0x80 + p % 64]
  }

  function Encode(s: Text): seq<Byte> {
    if s == [] then [] else Bytes(CodePoint(s)) + Encode(s[Width(s)..])
  }

  // ------------------------------------------------- the decoder, after section 3 of RFC 3629

  /** How many octets the first one announces, zero when it may not come first. */
  function Octets(first: Byte): nat {
    if first <= 0x7f then 1
    else if 0xc0 <= first <= 0xdf then 2
    else if 0xe0 <= first <= 0xef then 3
    else if 0xf0 <= first <= 0xf7 then 4
    else 0
  }

  predicate IsSequence(bs: seq<Byte>) {
    bs != [] && |bs| == Octets(bs[0]) && forall i | 1 <= i < |bs| :: 0x80 <= bs[i] <= 0xbf
  }

  /** The character number: the bits of the first octet that are not its mark, then six bits of
      each further one. */
  function CharacterNumber(bs: seq<Byte>): int
    requires IsSequence(bs)
  {
    if |bs| == 1 then bs[0]
    else if |bs| == 2 then (bs[0] as int - 0xc0) * 0x40 + (bs[1] as int - 0x80)
    else if |bs| == 3 then (bs[0] as int - 0xe0) * 0x1000 + (bs[1] as int - 0x80) * 0x40 + (bs[2] as int - 0x80)
    else
      (bs[0] as int - 0xf0) * 0x4_0000 + (bs[1] as int - 0x80) * 0x1000 + (bs[2] as int - 0x80) * 0x40
      + (bs[3] as int - 0x80)
  }

  /** In range, not a surrogate, and not to be had with fewer octets. */
  predicate IsProper(p: int, octets: nat) {
    && p <= 0x10_ffff && !(0xd800 <= p <= 0xdfff)
    && (octets == 2 ==> p >= 0x80) && (octets == 3 ==> p >= 0x800) && (octets == 4 ==> p >= 0x1_0000)
  }

  /** The code units of a character number, after section 2.1 of RFC 2781. */
  function Units(p: int): Text
    requires 0 <= p <= 0x10_ffff
  {
    if p < 0x1_0000 then [p]
    else [0xd800 + (p - 0x1_0000) / 0x400, 0xdc00 + (p - 0x1_0000) % 0x400]
  }

  function Decode(bs: seq<Byte>): Option<Text> {
    if bs == [] then Some([])
    else
      var n := Octets(bs[0]);
      if n > |bs| || !IsSequence(bs[..n]) || !IsProper(CharacterNumber(bs[..n]), n) then None
      else
        var rest := Decode(bs[n..]);
        if rest.None? then None else Some(Units(CharacterNumber(bs[..n])) + rest.value)
  }

  // ------------------------------------------------------------------------- there and back

  lemma BytesRead(p: int)
    requires 0 <= p < 0x11_0000 && !(0xd800 <= p <= 0xdfff)
    ensures IsSequence(Bytes(p)) && CharacterNumber(Bytes(p)) == p && IsProper(p, |Bytes(p)|)
  {
    var a, b := p / 64, p / 64 / 64;
    assert p == a * 64 + p % 64 && a == b * 64 + a % 64;
  }

  lemma UnitsOfCodePoint(s: Text)
    requires s != [] && WellPaired(s)
    ensures Units(CodePoint(s)) == s[..Width(s)] && WellPaired(s[Width(s)..])
  {
    if Width(s) == 2 {
      var hi, lo := s[0] as int - 0xd800, s[1] as int - 0xdc00;
      assert (hi * 0x400 + lo) / 0x400 == hi && (hi * 0x400 + lo) % 0x400 == lo;
    }
  }

  /** The bytes are the text's UTF-8 encoding: the decoder gives back every text without lone
      surrogates. */
  lemma {:induction false} DecodesBack(s: Text)
    requires WellPaired(s)
    ensures Decode(Encode(s)) == Some(s)
  {
    if s != [] {
      var n, p := Width(s), CodePoint(s);
      var bs, rest := Bytes(p), Encode(s[n..]);
      BytesRead(p);
      UnitsOfCodePoint(s);
      DecodesBack(s[n..]);
      assert (bs + rest)[..|bs|] == bs && (bs + rest)[|bs|..] == rest;
      assert (bs + rest)[0] == bs[0];
      assert s == s[..n] + s[n..];
    }
  }

  /** So texts without lone surrogates have different bytes. */
  lemma EncodeUnique(s: Text, t: Text)
    requires WellPaired(s) && WellPaired(t) && Encode(s) == Encode(t)
    ensures s == t
  {
    DecodesBack(s);
    DecodesBack(t);
  }
}
