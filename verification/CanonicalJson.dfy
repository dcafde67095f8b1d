/** Sorted-key printing of JavaScript values, the text that receipts are hashed and signed over. */
module CanonicalJson {
  import opened JsonText
  import opened Sorting

  // A finite number as JSON.stringify prints it (section 6 of RFC 8259).

  predicate IsDigit(u: CodeUnit) { 0x30 <= u <= 0x39 }

  predicate Digits(t: Text) { t != [] && forall u | u in t :: IsDigit(u) }

  /** No leading zero. */
  predicate IsInt(t: Text) { Digits(t) && (t[0] == 0x30 ==> |t| == 1) }

  predicate IsFrac(t: Text) { t == [] || (t[0] == 0x2e && Digits(t[1..])) }

  predicate IsExp(t: Text) {
    t == [] || ((t[0] == 0x65 || t[0] == 0x45)
                && (Digits(t[1..]) || (|t| > 1 && (t[1] == 0x2b || t[1] == 0x2d) && Digits(t[2..]))))
  }

  predicate IsUnsigned(t: Text) {
    exists i, j :: 0 <= i <= j <= |t| && IsInt(t[..i]) && IsFrac(t[i..j]) && IsExp(t[j..])
  }

  predicate IsNumeral(t: Text) {
    if t != [] && t[0] == 0x2d then IsUnsigned(t[1..]) else IsUnsigned(t)
  }

  lemma ZeroIsNumeral()
    ensures IsNumeral([0x30])
  {
    var t: Text := [0x30];
    assert t[..1] == t && t[1..1] == [] && t[1..] == [];
    assert IsInt(t[..1]) && IsFrac(t[1..1]) && IsExp(t[1..]);
  }

  predicate InNumeral(u: CodeUnit) {
    IsDigit(u) || u == 0x2b || u == 0x2d || u == 0x2e || u == 0x45 || u == 0x65
  }

  lemma UnsignedUnits(t: Text)
    requires IsUnsigned(t)
    ensures t != [] && IsDigit(t[0]) && forall k | 0 <= k < |t| :: InNumeral(t[k])
  {
    var i, j :| 0 <= i <= j <= |t| && IsInt(t[..i]) && IsFrac(t[i..j]) && IsExp(t[j..]);
    assert t[0] == t[..i][0];
    forall k | 0 <= k < |t| ensures InNumeral(t[k]) {
      if k < i {
        assert t[k] == t[..i][k];
      } else if k == i < j {
        assert t[k] == t[i..j][0];
      } else if i < k < j {
        assert t[k] == t[i..j][1..][k - i - 1];
      } else if k == j {
        assert t[k] == t[j..][0];
      } else if k == j + 1 {
        assert t[k] == t[j..][1] == t[j..][1..][0];
      } else {
        assert t[k] == t[j..][1..][k - j - 1] == t[j..][2..][k - j - 2];
      }
    }
  }

  /** There is no quote, bracket or separator in it. */
  lemma NumeralUnits(t: Text)
    requires IsNumeral(t)
    ensures t != [] && (IsDigit(t[0]) || t[0] == 0x2d) && forall k | 0 <= k < |t| :: InNumeral(t[k])
  {
    if t != [] && t[0] == 0x2d {
      UnsignedUnits(t[1..]);
      forall k | 0 <= k < |t| ensures InNumeral(t[k]) { assert k > 0 ==> t[k] == t[1..][k - 1]; }
    } else {
      UnsignedUnits(t);
    }
  }

  type Numeral = t: Text | IsNumeral(t) witness (ZeroIsNumeral(); [0x30])

  /** A finite number is named by its printed form; `Other` is any value that is printed through
      String(value). An object lists its members in insertion order. */
  datatype Value =
    | Null
    | Undefined
    | Bool(b: bool)
    | Number(numeral: Numeral)
    | NotFinite
    | Str(text: Text)
    | Arr(items: seq<Value>)
    | Obj(members: seq<Member>)
    | Other(shown: Text)

  datatype Member = Member(key: Text, value: Value)

  /** The comparator of two keys: `a.localeCompare(b) <= 0`. */
  type KeyOrder = (Text, Text) -> bool

  ghost predicate DistinctKeys(ms: seq<Member>) {
    forall i, j | 0 <= i < j < |ms| :: ms[i].key != ms[j].key
  }

  /** No object has a key twice, at any depth. */
  ghost predicate WellFormed(v: Value) {
    match v
    case Arr(items) => forall i | 0 <= i < |items| :: WellFormed(items[i])
    case Obj(ms) => DistinctKeys(ms) && forall i | 0 <= i < |ms| :: WellFormed(ms[i].value)
    case _ => true
  }

  // ----------------------------------------------------------------- printing

  const NULL_TEXT: Text := [0x6e, 0x75, 0x6c, 0x6c]
  const TRUE_TEXT: Text := [0x74, 0x72, 0x75, 0x65]
  const FALSE_TEXT: Text := [0x66, 0x61, 0x6c, 0x73, 0x65]

  function Keys(ms: seq<Member>): seq<Text> {
    seq(|ms|, i requires 0 <= i < |ms| => ms[i].key)
  }

  /** `record[k]`. */
  function Lookup(ms: seq<Member>, k: Text): (v: Value)
    requires k in Keys(ms)
    ensures exists i | 0 <= i < |ms| :: ms[i].key == k && v == ms[i].value
  {
    if ms[0].key == k then ms[0].value
    else
      assert Keys(ms) == [ms[0].key] + Keys(ms[1..]);
      var v := Lookup(ms[1..], k);
      assert forall i | 0 <= i < |ms[1..]| :: ms[1..][i] == ms[i + 1];
      v
  }

  function CanonicalStringify(le: KeyOrder, v: Value): Text
    decreases v, 1, 0
  {
    match v
    case Null => NULL_TEXT
    case Undefined => NULL_TEXT
    case NotFinite => NULL_TEXT
    case Bool(b) => if b then TRUE_TEXT else FALSE_TEXT
    case Number(n) => n
    case Str(t) => Quote(t)
    case Arr(items) => [OPEN_BRACKET] + PrintItems(le, v, 0) + [CLOSE_BRACKET]
    case Obj(ms) =>
      SortRearranges(le, Keys(ms));
      [OPEN_BRACE] + PrintEntries(le, v, Sort(le, Keys(ms))) + [CLOSE_BRACE]
    case Other(t) => Quote(t)
  }

  /** The items from the i-th on, joined by commas. */
  function PrintItems(le: KeyOrder, v: Value, i: nat): Text
    requires v.Arr? && i <= |v.items|
    decreases v, 0, |v.items| - i
  {
    if i == |v.items| then []
    else if i == |v.items| - 1 then CanonicalStringify(le, v.items[i])
    else CanonicalStringify(le, v.items[i]) + [COMMA] + PrintItems(le, v, i + 1)
  }

  /** The entries under the given keys, in that order, joined by commas. */
  function PrintEntries(le: KeyOrder, v: Value, keys: seq<Text>): Text
    requires v.Obj? && forall k | k in keys :: k in Keys(v.members)
    decreases v, 0, |keys|
  {
    if keys == [] then []
    else
      var x := Lookup(v.members, keys[0]);
      var entry := Quote(keys[0]) + [COLON] + CanonicalStringify(le, x);
      if |keys| == 1 then entry else entry + [COMMA] + PrintEntries(le, v, keys[1..])
  }

  // ------------------------------------------------------------ what is printed

  /** The same printing with members in the order they stand in: JSON.stringify on parsed values. */
  function Spell(v: Value): Text
    decreases v, 1
  {
    match v
    case Null => NULL_TEXT
    case Undefined => NULL_TEXT
    case NotFinite => NULL_TEXT
    case Bool(b) => if b then TRUE_TEXT else FALSE_TEXT
    case Number(n) => n
    case Str(t) => Quote(t)
    case Arr(items) => [OPEN_BRACKET] + SpellItems(items) + [CLOSE_BRACKET]
    case Obj(ms) => [OPEN_BRACE] + SpellMembers(ms) + [CLOSE_BRACE]
    case Other(t) => Quote(t)
  }

  function SpellItems(items: seq<Value>): Text
    decreases items, 0
  {
    if items == [] then []
    else if |items| == 1 then Spell(items[0])
    else Spell(items[0]) + [COMMA] + SpellItems(items[1..])
  }

  function SpellMember(m: Member): Text
    decreases m, 2
  {
    Quote(m.key) + [COLON] + Spell(m.value)
  }

  function SpellMembers(ms: seq<Member>): Text
    decreases ms, 0
  {
    if ms == [] then []
    else if |ms| == 1 then SpellMember(ms[0])
    else SpellMember(ms[0]) + [COMMA] + SpellMembers(ms[1..])
  }

  predicate ByKey(le: KeyOrder, a: Member, b: Member) {
    le(a.key, b.key)
  }

  /** The value that the canonical text spells out: keys sorted at every depth, and what has no
      JSON form of its own replaced by what is printed for it. */
  function Canon(le: KeyOrder, v: Value): Value
    decreases v, 1
  {
    match v
    case Undefined => Null
    case NotFinite => Null
    case Other(t) => Str(t)
    case Arr(items) => Arr(CanonItems(le, items))
    case Obj(ms) => Obj(Sort((a, b) => ByKey(le, a, b), CanonMembers(le, ms)))
    case _ => v
  }

  function CanonItems(le: KeyOrder, items: seq<Value>): (r: seq<Value>)
    ensures |r| == |items| && forall i | 0 <= i < |items| :: r[i] == Canon(le, items[i])
    decreases items, 0
  {
    if items == [] then [] else [Canon(le, items[0])] + CanonItems(le, items[1..])
  }

  function CanonMembers(le: KeyOrder, ms: seq<Member>): (r: seq<Member>)
    ensures |r| == |ms| && forall i | 0 <= i < |ms| :: r[i] == Member(ms[i].key, Canon(le, ms[i].value))
    decreases ms, 0
  {
    if ms == [] then [] else [Member(ms[0].key, Canon(le, ms[0].value))] + CanonMembers(le, ms[1..])
  }
}
