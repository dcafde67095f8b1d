/** Strings of 16-bit code units and their quoting (section 7 of RFC 8259, with lone surrogates
    escaped as ECMAScript's JSON.stringify does). */
module JsonText {
  type CodeUnit = u: int | 0 <= u < 0x1_0000
  type Text = seq<CodeUnit>

  const QUOTE: CodeUnit := 0x22
  const BACKSLASH: CodeUnit := 0x5c
  const COMMA: CodeUnit := 0x2c
  const COLON: CodeUnit := 0x3a
  const OPEN_BRACKET: CodeUnit := 0x5b
  const CLOSE_BRACKET: CodeUnit := 0x5d
  const OPEN_BRACE: CodeUnit := 0x7b
  const CLOSE_BRACE: CodeUnit := 0x7d

  predicate IsLead(u: CodeUnit) { 0xd800 <= u <= 0xdbff }
  predicate IsTrail(u: CodeUnit) { 0xdc00 <= u <= 0xdfff }

  function HexDigit(d: int): CodeUnit
    requires 0 <= d < 16
  {
    if d < 10 then 0x30 + d else 0x57 + d
  }

  function UnicodeEscape(u: CodeUnit): Text {
    [BACKSLASH, 0x75, HexDigit(u / 16 / 16 / 16), HexDigit(u / 16 / 16 % 16), HexDigit(u / 16 % 16), HexDigit(u % 16)]
  }

  /** The letter of a two-unit escape, or 0. */
  function ShortEscape(u: CodeUnit): CodeUnit {
    if u == 0x08 then 0x62 else if u == 0x09 then 0x74 else if u == 0x0a then 0x6e
    else if u == 0x0c then 0x66 else if u == 0x0d then 0x72
    else if u == QUOTE then QUOTE else if u == BACKSLASH then BACKSLASH else 0
  }

  /** How many units the next code point of `s` takes. */
  function Width(s: Text): (n: nat)
    requires s != []
    ensures 1 <= n <= |s|
  {
    if |s| > 1 && IsLead(s[0]) && IsTrail(s[1]) then 2 else 1
  }

  /** How the next code point is printed. */
  function Chunk(s: Text): Text
    requires s != []
  {
    if Width(s) == 2 then s[..2]
    else if ShortEscape(s[0]) != 0 then [BACKSLASH, ShortEscape(s[0])]
    else if s[0] < 0x20 || IsLead(s[0]) || IsTrail(s[0]) then UnicodeEscape(s[0])
    else [s[0]]
  }

  function Escape(s: Text): Text {
    if s == [] then [] else Chunk(s) + Escape(s[Width(s)..])
  }

  function Quote(s: Text): Text {
    [QUOTE] + Escape(s) + [QUOTE]
  }

  // ----------------------------------------------------------- well-formedness

  /** Every surrogate is half of a pair, so encoding the text as UTF-8 loses nothing. */
  predicate WellPaired(s: Text) {
    if s == [] then true
    else if IsLead(s[0]) || IsTrail(s[0]) then Width(s) == 2 && WellPaired(s[2..])
    else WellPaired(s[1..])
  }

  lemma {:induction false} WellPairedConcat(s: Text, t: Text)
    requires WellPaired(s) && WellPaired(t)
    ensures WellPaired(s + t)
  {
    if s == [] {
      assert s + t == t;
    } else {
      var n := Width(s);
      WellPairedConcat(s[n..], t);
      assert (s + t)[n..] == s[n..] + t;
    }
  }

  lemma {:induction false} PlainIsWellPaired(s: Text)
    requires forall u | u in s :: !IsLead(u) && !IsTrail(u)
    ensures WellPaired(s)
  {
    if s != [] {
      PlainIsWellPaired(s[1..]);
    }
  }

  lemma ChunkIsWellPaired(s: Text)
    requires s != []
    ensures WellPaired(Chunk(s))
  {
    if Width(s) == 2 {
      assert s[..2][2..] == [];
    } else {
      PlainIsWellPaired(Chunk(s));
    }
  }

  lemma {:induction false} EscapeIsWellPaired(s: Text)
    ensures WellPaired(Escape(s))
  {
    if s != [] {
      ChunkIsWellPaired(s);
      EscapeIsWellPaired(s[Width(s)..]);
      WellPairedConcat(Chunk(s), Escape(s[Width(s)..]));
    }
  }

  lemma QuoteIsWellPaired(s: Text)
    ensures WellPaired(Quote(s))
  {
    EscapeIsWellPaired(s);
    PlainIsWellPaired([QUOTE]);
    WellPairedConcat([QUOTE], Escape(s));
    WellPairedConcat([QUOTE] + Escape(s), [QUOTE]);
  }
}
