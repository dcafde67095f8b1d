/** What is printed is the JSON of the value: a reader made from the grammar alone gets it back. */
module JsonRoundTrip {
  import opened JsonText
  import opened CanonicalJson
  import opened JsonReader

  // ------------------------------------------------------------------------ strings

  lemma HexDigitReads(d: int)
    requires 0 <= d < 16
    ensures HexValue(HexDigit(d)) == d
  {}

  lemma HexDigitsAdd(u: int)
    requires 0 <= u < 0x1_0000
    ensures u / 16 / 16 / 16 * 4096 + u / 16 / 16 % 16 * 256 + u / 16 % 16 * 16 + u % 16 == u
  {}

  lemma UnicodeEscapeReads(u: CodeUnit, x: Text)
    ensures FourHex(UnicodeEscape(u) + x) == u
  {
    var t := UnicodeEscape(u) + x;
    assert t[..6] == UnicodeEscape(u);
    assert t[2] == UnicodeEscape(u)[2] && t[3] == UnicodeEscape(u)[3]
        && t[4] == UnicodeEscape(u)[4] && t[5] == UnicodeEscape(u)[5];
    HexDigitReads(u / 16 / 16 / 16);
    HexDigitReads(u / 16 / 16 % 16);
    HexDigitReads(u / 16 % 16);
    HexDigitReads(u % 16);
    HexDigitsAdd(u);
  }

  function Prepend(s: Text, p: Parsed<Text>): Parsed<Text> {
    if p.Read? then Read(s + p.value, p.rest) else Bad
  }

  /** A printed code point is read back as its units. */
  lemma ChunkReads(s: Text, x: Text)
    requires s != []
    ensures ReadUnits(Chunk(s) + x) == Prepend(s[..Width(s)], ReadUnits(x))
  {
    var t := Chunk(s) + x;
    assert t[0] == Chunk(s)[0];
    if Width(s) == 2 {
      assert t[1..] == [s[1]] + x && t[1..][1..] == x;
      assert ReadUnits(t[1..]) == Prepend([s[1]], ReadUnits(x));
      if ReadUnits(x).Read? {
        assert s[..2] + ReadUnits(x).value == [s[0]] + ([s[1]] + ReadUnits(x).value);
      }
    } else if ShortEscape(s[0]) != 0 {
      assert t[1] == ShortEscape(s[0]) && t[2..] == x;
      assert s[..1] == [s[0]];
    } else if s[0] < 0x20 || IsLead(s[0]) || IsTrail(s[0]) {
      UnicodeEscapeReads(s[0], x);
      assert t[1] == 0x75 && t[6..] == x;
      assert s[..1] == [s[0]];
    } else {
      assert t[1..] == x;
      assert s[..1] == [s[0]];
    }
  }

  lemma EscapeSplit(s: Text, a: Text)
    requires s != []
    ensures Escape(s) + ([QUOTE] + a) == Chunk(s) + (Escape(s[Width(s)..]) + ([QUOTE] + a))
  {}

  lemma {:induction false} EscapeReads(s: Text, a: Text)
    ensures ReadUnits(Escape(s) + ([QUOTE] + a)) == Read(s, a)
  {
    if s == [] {
      assert ([QUOTE] + a)[1..] == a;
      assert Escape(s) + ([QUOTE] + a) == [QUOTE] + a;
    } else {
      var s' := s[Width(s)..];
      EscapeSplit(s, a);
      EscapeReads(s', a);
      ChunkReads(s, Escape(s') + ([QUOTE] + a));
      assert s == s[..Width(s)] + s';
    }
  }

  lemma QuoteTail(s: Text, a: Text)
    ensures Quote(s) + a != [] && (Quote(s) + a)[0] == QUOTE && (Quote(s) + a)[1..] == Escape(s) + ([QUOTE] + a)
  {
    assert Quote(s) + a == [QUOTE] + (Escape(s) + ([QUOTE] + a));
  }

  /** A quoted string is read back as itself, and so can be read off the front of any text in one
      way only. */
  lemma QuoteUnique(s: Text, t: Text, a: Text, b: Text)
    requires Quote(s) + a == Quote(t) + b
    ensures s == t && a == b
  {
    QuoteTail(s, a);
    QuoteTail(t, b);
    EscapeReads(s, a);
    EscapeReads(t, b);
  }

  /** Nothing is escaped but quotation mark, reverse solidus, controls and lone surrogates. */
  lemma {:induction false} OrdinaryTextStays(s: Text)
    requires forall i | 0 <= i < |s| ::
      s[i] >= 0x20 && s[i] != 0x22 && s[i] != 0x5c && !(0xd800 <= s[i] <= 0xdfff)
    ensures Escape(s) == s
  {
    if s != [] {
      OrdinaryTextStays(s[1..]);
      assert Width(s) == 1 && Chunk(s) == [s[0]];
    }
  }

  /** What is escaped takes the short form where there is one, and lower-case digits otherwise. */
  lemma EscapedUnit(u: CodeUnit)
    requires u < 0x20 || u == 0x22 || u == 0x5c || 0xd800 <= u <= 0xdfff
    ensures |Escape([u])| == if u in {0x08, 0x09, 0x0a, 0x0c, 0x0d, 0x22, 0x5c} then 2 else 6
    ensures Escape([u])[0] == 0x5c && forall i | 2 <= i < |Escape([u])| ::
      0x30 <= Escape([u])[i] <= 0x39 || 0x61 <= Escape([u])[i] <= 0x66
  {
    assert Escape([u]) == Chunk([u]) + Escape([u][1..]);
    assert Escape([u][1..]) == [];
  }

  // ------------------------------------------------------------------------- values

  /** What may follow a complete value inside a larger text. */
  predicate Ends(rest: Text) {
    rest == [] || rest[0] == COMMA || rest[0] == CLOSE_BRACKET || rest[0] == CLOSE_BRACE
  }

  /** Every value in it has a JSON form of its own. */
  predicate Plain(v: Value) {
    match v
    case Undefined => false
    case NotFinite => false
    case Other(_) => false
    case Arr(items) => forall i | 0 <= i < |items| :: Plain(items[i])
    case Obj(ms) => forall i | 0 <= i < |ms| :: Plain(ms[i].value)
    case _ => true
  }

  /** The first unit of a value's text tells which kind of value it is. */
  function FirstUnit(v: Value): CodeUnit {
    match v
    case Bool(b) => if b then 0x74 else 0x66
    case Number(n) => NumeralUnits(n); n[0]
    case Str(_) => QUOTE
    case Other(_) => QUOTE
    case Arr(_) => OPEN_BRACKET
    case Obj(_) => OPEN_BRACE
    case _ => 0x6e
  }

  lemma StartsWithFirstUnit(v: Value)
    ensures Spell(v) != [] && Spell(v)[0] == FirstUnit(v) && !IsSpace(FirstUnit(v))
    ensures FirstUnit(v) != COMMA && FirstUnit(v) != CLOSE_BRACKET && FirstUnit(v) != CLOSE_BRACE
  {
    if v.Number? {
      NumeralUnits(v.numeral);
    }
  }

  /** The part after the first item: the rest of the list, then `tail`. */
  function AfterItem(rest: seq<Value>, tail: Text): Text {
    if rest == [] then tail else [COMMA] + (SpellItems(rest) + tail)
  }

  function AfterMember(rest: seq<Member>, tail: Text): Text {
    if rest == [] then tail else [COMMA] + (SpellMembers(rest) + tail)
  }

  lemma ItemsSplit(items: seq<Value>, tail: Text)
    requires items != []
    ensures SpellItems(items) + tail == Spell(items[0]) + AfterItem(items[1..], tail)
  {
  }

  lemma FourParts(a: Text, b: Text, c: Text, d: Text)
    ensures (a + b + c) + d == a + (b + (c + d))
  {}

  lemma MembersSplit(ms: seq<Member>, tail: Text)
    requires ms != []
    ensures SpellMembers(ms) + tail == Quote(ms[0].key) + ([COLON] + (Spell(ms[0].value) + AfterMember(ms[1..], tail)))
  {
    var key, value := Quote(ms[0].key), Spell(ms[0].value);
    assert SpellMember(ms[0]) == key + [COLON] + value;
    FourParts(key, [COLON], value, AfterMember(ms[1..], tail));
    if |ms| == 1 {
      assert SpellMembers(ms) == SpellMember(ms[0]);
    } else {
      assert SpellMembers(ms) == SpellMember(ms[0]) + [COMMA] + SpellMembers(ms[1..]);
      FourParts(SpellMember(ms[0]), [COMMA], SpellMembers(ms[1..]), tail);
      assert [COMMA] + (SpellMembers(ms[1..]) + tail) == AfterMember(ms[1..], tail);
    }
  }

  lemma SpellOpens(v: Value, tail: Text)
    ensures v.Arr? ==> Spell(v) + tail == [OPEN_BRACKET] + (SpellItems(v.items) + ([CLOSE_BRACKET] + tail))
    ensures v.Obj? ==> Spell(v) + tail == [OPEN_BRACE] + (SpellMembers(v.members) + ([CLOSE_BRACE] + tail))
  {
  }

  lemma NoSpace(t: Text)
    requires t == [] || !IsSpace(t[0])
    ensures SkipSpace(t) == t
  {}

  lemma MembersOpen(ms: seq<Member>, tail: Text)
    requires ms != []
    ensures
      var t := SpellMembers(ms) + tail;
      t != [] && t[0] == QUOTE && SkipSpace(t) == t
  {
    MembersSplit(ms, tail);
    QuoteTail(ms[0].key, [COLON] + (Spell(ms[0].value) + AfterMember(ms[1..], tail)));
    NoSpace(SpellMembers(ms) + tail);
  }

  lemma {:induction false} RunLength(n: Text, a: Text)
    requires (forall k | 0 <= k < |n| :: InNumeral(n[k])) && Ends(a)
    ensures NumberRun(n + a) == |n|
  {
    if n == [] {
      assert n + a == a;
    } else {
      assert (n + a)[0] == n[0] && (n + a)[1..] == n[1..] + a;
      RunLength(n[1..], a);
    }
  }

  lemma OtherWord(t: Text, word: Text)
    requires t != [] && word != [] && t[0] != word[0]
    ensures !Starts(t, word)
  {
    if |word| <= |t| {
      assert t[..|word|][0] == t[0];
    }
  }

  lemma NumberReads(n: Numeral, a: Text)
    requires Ends(a)
    ensures ReadValue(n + a) == Read(Number(n), a)
  {
    NumeralUnits(n);
    RunLength(n, a);
    var t := n + a;
    assert t[0] == n[0] && t[..|n|] == n && t[|n|..] == a;
    assert ReadNumber(t) == Read(Number(n), a);
    OtherWord(t, [0x6e, 0x75, 0x6c, 0x6c]);
    OtherWord(t, [0x74, 0x72, 0x75, 0x65]);
    OtherWord(t, [0x66, 0x61, 0x6c, 0x73, 0x65]);
  }

  lemma WordReads(v: Value, a: Text)
    requires v.Null? || v.Bool?
    ensures ReadValue(Spell(v) + a) == Read(v, a)
  {
    var t, word := Spell(v) + a, Spell(v);
    assert t[0] == word[0] && t[..|word|] == word && t[|word|..] == a;
    if !v.Null? {
      OtherWord(t, [0x6e, 0x75, 0x6c, 0x6c]);
      if !v.b {
        OtherWord(t, [0x74, 0x72, 0x75, 0x65]);
      }
    }
  }

  lemma StringReads(s: Text, a: Text)
    ensures ReadValue(Quote(s) + a) == Read(Str(s), a)
  {
    QuoteTail(s, a);
    EscapeReads(s, a);
  }

  /** A printed value is read back as itself, wherever it is complete. */
  lemma {:induction false} ValueReads(v: Value, a: Text)
    requires Plain(v) && Ends(a)
    ensures ReadValue(Spell(v) + a) == Read(v, a)
    decreases v, 1
  {
    SpellOpens(v, a);
    match v
    case Number(n) => NumberReads(n, a);
    case Str(t) => StringReads(t, a);
    case Arr(items) => ArrayReads(v, a);
    case Obj(ms) => ObjectReads(v, a);
    case _ => WordReads(v, a);
  }

  lemma {:induction false} ArrayReads(v: Value, a: Text)
    requires v.Arr? && Plain(v) && Ends(a)
    ensures ReadValue(Spell(v) + a) == Read(v, a)
    decreases v, 0
  {
    SpellOpens(v, a);
    var inside := SpellItems(v.items) + ([CLOSE_BRACKET] + a);
    assert (Spell(v) + a)[1..] == inside && (Spell(v) + a)[0] == OPEN_BRACKET;
    if v.items == [] {
      assert inside == [CLOSE_BRACKET] + a && inside[1..] == a;
    } else {
      ItemsSplit(v.items, [CLOSE_BRACKET] + a);
      StartsWithFirstUnit(v.items[0]);
      assert inside[0] == FirstUnit(v.items[0]);
      NoSpace(inside);
      ItemsRead(v.items, a);
    }
  }

  lemma {:induction false} ItemsRead(items: seq<Value>, a: Text)
    requires items != [] && (forall i | 0 <= i < |items| :: Plain(items[i])) && Ends(a)
    ensures ReadItems(SpellItems(items) + ([CLOSE_BRACKET] + a)) == Read(items, a)
    decreases items, 0
  {
    var tail := [CLOSE_BRACKET] + a;
    var rest := AfterItem(items[1..], tail);
    ItemsSplit(items, tail);
    ValueReads(items[0], rest);
    NoSpace(rest);
    if items[1..] == [] {
      assert tail[1..] == a;
      assert items == [items[0]];
    } else {
      var more := SpellItems(items[1..]) + tail;
      assert rest[1..] == more;
      ItemsSplit(items[1..], tail);
      StartsWithFirstUnit(items[1]);
      assert more[0] == FirstUnit(items[1]);
      NoSpace(more);
      ItemsRead(items[1..], a);
      assert items == [items[0]] + items[1..];
    }
  }

  lemma {:induction false} ObjectReads(v: Value, a: Text)
    requires v.Obj? && Plain(v) && Ends(a)
    ensures ReadValue(Spell(v) + a) == Read(v, a)
    decreases v, 0
  {
    SpellOpens(v, a);
    var inside := SpellMembers(v.members) + ([CLOSE_BRACE] + a);
    assert (Spell(v) + a)[1..] == inside && (Spell(v) + a)[0] == OPEN_BRACE;
    if v.members == [] {
      assert inside == [CLOSE_BRACE] + a && inside[1..] == a;
    } else {
      MembersOpen(v.members, [CLOSE_BRACE] + a);
      MembersRead(v.members, a);
    }
  }

  lemma {:induction false} MemberReads(m: Member, rest: Text)
    requires Plain(m.value) && Ends(rest)
    ensures ReadMember(Quote(m.key) + ([COLON] + (Spell(m.value) + rest))) == Read(m, rest)
    decreases m, 0
  {
    var value := Spell(m.value) + rest;
    var colon := [COLON] + value;
    QuoteTail(m.key, colon);
    EscapeReads(m.key, colon);
    NoSpace(colon);
    assert colon[1..] == value;
    StartsWithFirstUnit(m.value);
    assert value[0] == FirstUnit(m.value);
    NoSpace(value);
    ValueReads(m.value, rest);
  }

  lemma LastMember(t: Text, m: Member, a: Text)
    requires ReadMember(t) == Read(m, [CLOSE_BRACE] + a)
    ensures ReadMembers(t) == Read([m], a)
  {
    assert ([CLOSE_BRACE] + a)[1..] == a;
    NoSpace([CLOSE_BRACE] + a);
  }

  lemma MoreMembers(t: Text, m: Member, more: Text, ms: seq<Member>, a: Text)
    requires ReadMember(t) == Read(m, [COMMA] + more) && SkipSpace(more) == more && ReadMembers(more) == Read(ms, a)
    ensures ReadMembers(t) == Read([m] + ms, a)
  {
    assert ([COMMA] + more)[1..] == more;
    NoSpace([COMMA] + more);
  }

  lemma {:induction false} MembersRead(ms: seq<Member>, a: Text)
    requires ms != [] && (forall i | 0 <= i < |ms| :: Plain(ms[i].value)) && Ends(a)
    ensures ReadMembers(SpellMembers(ms) + ([CLOSE_BRACE] + a)) == Read(ms, a)
    decreases ms, 0
  {
    var tail := [CLOSE_BRACE] + a;
    var t, rest := SpellMembers(ms) + tail, ms[1..];
    assert ms == [ms[0]] + rest;
    MembersSplit(ms, tail);
    MemberReads(ms[0], AfterMember(rest, tail));
    if rest == [] {
      assert ms == [ms[0]];
      LastMember(t, ms[0], a);
    } else {
      MembersOpen(rest, tail);
      MembersRead(rest, a);
      MoreMembers(t, ms[0], SpellMembers(rest) + tail, rest, a);
    }
  }

  /** The whole text of a value reads back as the value. */
  lemma TextReads(v: Value)
    requires Plain(v)
    ensures ReadText(Spell(v)) == Read(v, [])
  {
    assert Spell(v) + [] == Spell(v);
    StartsWithFirstUnit(v);
    NoSpace(Spell(v));
    ValueReads(v, []);
  }

  /** A value can be read off the front of any text in which it is complete. */
  lemma SpellUnique(v: Value, w: Value, a: Text, b: Text)
    requires Plain(v) && Plain(w) && Ends(a) && Ends(b) && Spell(v) + a == Spell(w) + b
    ensures v == w && a == b
  {
    ValueReads(v, a);
    ValueReads(w, b);
  }
}
