/** The canonical text of a value determines it up to the order of object keys, and forgets exactly
    that order when no object in the value has level keys. */
module CanonicalJsonExact {
  import opened JsonText
  import opened Utf8
  import opened Sorting
  import opened CanonicalJson
  import opened JsonReader
  import opened JsonRoundTrip

  // ------------------------------------------- the text spells out the canonical value

  lemma {:induction false} LookupFinds(ms: seq<Member>, i: nat)
    requires DistinctKeys(ms) && i < |ms|
    ensures ms[i].key in Keys(ms) && Lookup(ms, ms[i].key) == ms[i].value
  {
    assert Keys(ms)[i] == ms[i].key;
    if i > 0 {
      assert Keys(ms) == [ms[0].key] + Keys(ms[1..]);
      LookupFinds(ms[1..], i - 1);
    }
  }

  lemma {:induction false} InsertCommutesWithKeys(le: KeyOrder, m: Member, ms: seq<Member>)
    ensures Keys(Insert((a, b) => ByKey(le, a, b), m, ms)) == Insert(le, m.key, Keys(ms))
  {
    if ms != [] {
      assert Keys(ms)[1..] == Keys(ms[1..]);
      InsertCommutesWithKeys(le, m, ms[1..]);
    }
  }

  lemma {:induction false} SortCommutesWithKeys(le: KeyOrder, ms: seq<Member>)
    ensures Keys(Sort((a, b) => ByKey(le, a, b), ms)) == Sort(le, Keys(ms))
  {
    if ms != [] {
      assert Keys(ms)[1..] == Keys(ms[1..]);
      SortCommutesWithKeys(le, ms[1..]);
      InsertCommutesWithKeys(le, ms[0], Sort((a, b) => ByKey(le, a, b), ms[1..]));
    }
  }

  lemma CanonMembersKeys(le: KeyOrder, ms: seq<Member>)
    ensures Keys(CanonMembers(le, ms)) == Keys(ms)
  {
  }

  /** The text that is hashed and signed is the spelling of the canonical value. */
  lemma {:induction false} CanonicalTextSpells(le: KeyOrder, v: Value)
    requires WellFormed(v)
    ensures CanonicalStringify(le, v) == Spell(Canon(le, v))
    decreases v, 1, 0
  {
    match v
    case Arr(items) =>
      ItemsSpell(le, v, 0);
      assert CanonItems(le, items)[0..] == CanonItems(le, items);
    case Obj(ms) =>
      var sorted := Sort((a, b) => ByKey(le, a, b), CanonMembers(le, ms));
      CanonMembersKeys(le, ms);
      SortCommutesWithKeys(le, CanonMembers(le, ms));
      SortRearranges(le, Keys(ms));
      SortRearranges((a, b) => ByKey(le, a, b), CanonMembers(le, ms));
      forall m | m in sorted ensures m in CanonMembers(le, ms) {}
      EntriesSpell(le, v, sorted);
    case _ =>
  }

  lemma {:induction false} ItemsSpell(le: KeyOrder, v: Value, i: nat)
    requires v.Arr? && WellFormed(v) && i <= |v.items|
    ensures PrintItems(le, v, i) == SpellItems(CanonItems(le, v.items)[i..])
    decreases v, 0, |v.items| - i
  {
    var rest := CanonItems(le, v.items)[i..];
    if i < |v.items| {
      CanonicalTextSpells(le, v.items[i]);
      ItemsSpell(le, v, i + 1);
      assert rest[1..] == CanonItems(le, v.items)[i + 1..];
    }
  }

  lemma CanonKeysKnown(le: KeyOrder, v: Value, ms: seq<Member>)
    requires v.Obj? && forall m | m in ms :: m in CanonMembers(le, v.members)
    ensures forall k | k in Keys(ms) :: k in Keys(v.members)
  {
    CanonMembersKeys(le, v.members);
    forall k | k in Keys(ms) ensures k in Keys(v.members) {
      var i :| 0 <= i < |ms| && ms[i].key == k;
      assert ms[i] in CanonMembers(le, v.members);
      var j :| 0 <= j < |v.members| && CanonMembers(le, v.members)[j] == ms[i];
      assert Keys(v.members)[j] == k;
    }
  }

  lemma FindMember(le: KeyOrder, v: Value, m: Member) returns (j: nat)
    requires v.Obj? && WellFormed(v) && m in CanonMembers(le, v.members)
    ensures j < |v.members| && m.key in Keys(v.members) && Lookup(v.members, m.key) == v.members[j].value
    ensures m.value == Canon(le, v.members[j].value)
  {
    var i :| 0 <= i < |v.members| && CanonMembers(le, v.members)[i] == m;
    LookupFinds(v.members, i);
    j := i;
  }

  lemma EntriesCombine(le: KeyOrder, v: Value, ms: seq<Member>)
    requires v.Obj? && ms != [] && forall k | k in Keys(ms) :: k in Keys(v.members)
    requires ms[0].key in Keys(v.members)
    requires CanonicalStringify(le, Lookup(v.members, ms[0].key)) == Spell(ms[0].value)
    requires forall k | k in Keys(ms[1..]) :: k in Keys(v.members)
    requires PrintEntries(le, v, Keys(ms[1..])) == SpellMembers(ms[1..])
    ensures PrintEntries(le, v, Keys(ms)) == SpellMembers(ms)
  {
    assert Keys(ms)[0] == ms[0].key && Keys(ms)[1..] == Keys(ms[1..]);
  }

  lemma {:induction false} EntriesSpell(le: KeyOrder, v: Value, ms: seq<Member>)
    requires v.Obj? && WellFormed(v) && forall m | m in ms :: m in CanonMembers(le, v.members)
    ensures forall k | k in Keys(ms) :: k in Keys(v.members)
    ensures PrintEntries(le, v, Keys(ms)) == SpellMembers(ms)
    decreases v, 0, |ms|
  {
    CanonKeysKnown(le, v, ms);
    if ms != [] {
      var j := FindMember(le, v, ms[0]);
      CanonicalTextSpells(le, v.members[j].value);
      EntriesSpell(le, v, ms[1..]);
      EntriesCombine(le, v, ms);
    }
  }

  // --------------------------------------------------- the canonical value is JSON's own

  lemma {:induction false} CanonIsPlain(le: KeyOrder, v: Value)
    ensures Plain(Canon(le, v))
    decreases v
  {
    match v
    case Arr(items) =>
      forall i | 0 <= i < |items| { CanonIsPlain(le, items[i]); }
    case Obj(ms) =>
      forall i | 0 <= i < |ms| ensures Plain(CanonMembers(le, ms)[i].value) { CanonIsPlain(le, ms[i].value); }
      var sorted := Sort((a, b) => ByKey(le, a, b), CanonMembers(le, ms));
      SortRearranges((a, b) => ByKey(le, a, b), CanonMembers(le, ms));
      forall i | 0 <= i < |sorted| ensures Plain(sorted[i].value) {
        assert sorted[i] in CanonMembers(le, ms);
      }
    case _ =>
  }

  // ------------------------------------------------- equal up to the order of keys

  function Flat(v: Value): Value {
    match v case Undefined => Null case NotFinite => Null case Other(t) => Str(t) case _ => v
  }

  /** Equal up to the order of object keys at every depth, values that JSON cannot tell apart
      counting as equal. */
  ghost predicate Same(v: Value, w: Value)
    decreases v, 1
  {
    if v.Arr? && w.Arr? then
      |v.items| == |w.items| && forall i | 0 <= i < |v.items| :: Same(v.items[i], w.items[i])
    else if v.Obj? && w.Obj? then
      |v.members| == |w.members| && forall i | 0 <= i < |v.members| :: HasPartner(v, w, i)
    else Flat(v) == Flat(w)
  }

  ghost predicate HasPartner(v: Value, w: Value, i: nat)
    requires v.Obj? && w.Obj? && i < |v.members|
    decreases v, 0
  {
    exists j | 0 <= j < |w.members| ::
      v.members[i].key == w.members[j].key && Same(v.members[i].value, w.members[j].value)
  }

  ghost predicate NoDup<T>(s: seq<T>) {
    forall i, j | 0 <= i < j < |s| :: s[i] != s[j]
  }

  lemma {:induction false} CountAtMostOne<T>(s: seq<T>, x: T)
    requires NoDup(s)
    ensures multiset(s)[x] <= 1
  {
    if s != [] {
      CountAtMostOne(s[1..], x);
      assert s == [s[0]] + s[1..];
      if s[0] == x {
        assert x !in s[1..];
        assert multiset(s[1..])[x] == 0;
      }
    }
  }

  lemma InclusionIsEquality<T>(a: seq<T>, b: seq<T>)
    requires NoDup(a) && |a| == |b| && forall x | x in a :: x in b
    ensures multiset(a) == multiset(b)
  {
    forall x ensures multiset(a)[x] <= multiset(b)[x] {
      CountAtMostOne(a, x);
      if x in a { assert x in multiset(b); }
    }
    assert multiset(a) <= multiset(b) && |multiset(b) - multiset(a)| == 0;
  }

  lemma {:induction false} CanonDetermines(le: KeyOrder, v: Value, w: Value)
    requires Canon(le, v) == Canon(le, w)
    ensures Same(v, w)
    decreases v
  {
    if v.Arr? && w.Arr? {
      forall i | 0 <= i < |v.items| ensures Same(v.items[i], w.items[i]) {
        assert CanonItems(le, v.items)[i] == CanonItems(le, w.items)[i];
        CanonDetermines(le, v.items[i], w.items[i]);
      }
    } else if v.Obj? && w.Obj? {
      var ms, ns := CanonMembers(le, v.members), CanonMembers(le, w.members);
      SortRearranges((a, b) => ByKey(le, a, b), ms);
      SortRearranges((a, b) => ByKey(le, a, b), ns);
      forall i | 0 <= i < |v.members| ensures HasPartner(v, w, i) {
        assert ms[i] in Sort((a, b) => ByKey(le, a, b), ms);
        assert ms[i] in ns;
        var j :| 0 <= j < |ns| && ns[j] == ms[i];
        CanonDetermines(le, v.members[i].value, w.members[j].value);
      }
    }
  }

  predicate Tied(le: KeyOrder, a: Text, b: Text) { le(a, b) && le(b, a) }

  /** No object in `v`, at any depth, has two different keys that the comparator puts level. */
  ghost predicate Untied(le: KeyOrder, v: Value) {
    match v
    case Arr(items) => forall i | 0 <= i < |items| :: Untied(le, items[i])
    case Obj(ms) =>
      && (forall i, j | 0 <= i < |ms| && 0 <= j < |ms| && ms[i].key != ms[j].key :: !Tied(le, ms[i].key, ms[j].key))
      && forall i | 0 <= i < |ms| :: Untied(le, ms[i].value)
    case _ => true
  }

  lemma {:induction false} SameHasOneCanon(le: KeyOrder, v: Value, w: Value)
    requires TotalPreorder(le) && Untied(le, v) && WellFormed(v) && WellFormed(w) && Same(v, w)
    ensures Canon(le, v) == Canon(le, w)
    decreases v
  {
    if v.Arr? && w.Arr? {
      forall i | 0 <= i < |v.items| { SameHasOneCanon(le, v.items[i], w.items[i]); }
      assert CanonItems(le, v.items) == CanonItems(le, w.items);
    } else if v.Obj? && w.Obj? {
      SameMembersSortAlike(le, v, w);
    }
  }

  lemma {:induction false} SameMembersSortAlike(le: KeyOrder, v: Value, w: Value)
    requires TotalPreorder(le) && Untied(le, v) && v.Obj? && w.Obj? && WellFormed(v) && WellFormed(w) && Same(v, w)
    ensures Canon(le, v) == Canon(le, w)
    decreases v, 0
  {
    var ms, ns := CanonMembers(le, v.members), CanonMembers(le, w.members);
    forall x | x in ms ensures x in ns {
      var i :| 0 <= i < |ms| && ms[i] == x;
      assert HasPartner(v, w, i);
      var j :| 0 <= j < |w.members| && v.members[i].key == w.members[j].key
               && Same(v.members[i].value, w.members[j].value);
      SameHasOneCanon(le, v.members[i].value, w.members[j].value);
      assert ns[j] == x;
    }
    InclusionIsEquality(ms, ns);
    forall x, y | x in ms && y in ms && ByKey(le, x, y) && ByKey(le, y, x) ensures x == y {
      var i :| 0 <= i < |ms| && ms[i] == x;
      var j :| 0 <= j < |ms| && ms[j] == y;
      assert !Tied(le, v.members[i].key, v.members[j].key) || v.members[i].key == v.members[j].key;
    }
    SortForgetsOrder((a, b) => ByKey(le, a, b), ms, ns);
  }

  /** Equal canonical texts mean equal values, whatever the comparator. */
  lemma CanonicalTextIsUnambiguous(le: KeyOrder, v: Value, w: Value)
    requires WellFormed(v) && WellFormed(w) && CanonicalStringify(le, v) == CanonicalStringify(le, w)
    ensures Same(v, w)
  {
    CanonicalTextSpells(le, v);
    CanonicalTextSpells(le, w);
    CanonIsPlain(le, v);
    CanonIsPlain(le, w);
    assert Spell(Canon(le, v)) + [] == Spell(Canon(le, v)) && Spell(Canon(le, w)) + [] == Spell(Canon(le, w));
    SpellUnique(Canon(le, v), Canon(le, w), [], []);
    CanonDetermines(le, v, w);
  }

  /** In the canonical value every object has the same keys as before, in ascending order. */
  lemma CanonKeysAscend(le: KeyOrder, ms: seq<Member>)
    requires TotalPreorder(le)
    ensures
      var sorted := Canon(le, Obj(ms)).members;
      && (forall i, j | 0 <= i < j < |sorted| :: le(sorted[i].key, sorted[j].key))
      && |sorted| == |ms|
      && forall i | 0 <= i < |ms| :: Member(ms[i].key, Canon(le, ms[i].value)) in sorted
  {
    var byKey := (a, b) => ByKey(le, a, b);
    SortSorts(byKey, CanonMembers(le, ms));
    SortRearranges(byKey, CanonMembers(le, ms));
    forall i | 0 <= i < |ms| ensures Member(ms[i].key, Canon(le, ms[i].value)) in Canon(le, Obj(ms)).members {
      assert CanonMembers(le, ms)[i] in CanonMembers(le, ms);
    }
  }

  /** The canonical text is JSON: a reader made from the grammar gets the canonical value back. */
  lemma CanonicalTextReads(le: KeyOrder, v: Value)
    requires WellFormed(v)
    ensures ReadText(CanonicalStringify(le, v)) == Read(Canon(le, v), [])
  {
    CanonicalTextSpells(le, v);
    CanonIsPlain(le, v);
    TextReads(Canon(le, v));
  }

  /** Canonical printing is exact: a value without level keys has the same text as another if and
      only if the two are equal up to the order of object keys. */
  lemma CanonicalPrintingIsExact(le: KeyOrder, v: Value, w: Value)
    requires TotalPreorder(le) && Untied(le, v) && WellFormed(v) && WellFormed(w)
    ensures CanonicalStringify(le, v) == CanonicalStringify(le, w) <==> Same(v, w)
  {
    if Same(v, w) {
      CanonicalTextSpells(le, v);
      CanonicalTextSpells(le, w);
      SameHasOneCanon(le, v, w);
    }
    if CanonicalStringify(le, v) == CanonicalStringify(le, w) {
      CanonicalTextIsUnambiguous(le, v, w);
    }
  }

  // ------------------------------------------------------------ text to bytes

  lemma {:induction false} SpellIsWellPaired(v: Value)
    ensures WellPaired(Spell(v))
    decreases v, 1
  {
    match v
    case Str(t) => QuoteIsWellPaired(t);
    case Other(t) => QuoteIsWellPaired(t);
    case Arr(items) =>
      ItemsAreWellPaired(items);
      Bracketed(OPEN_BRACKET, SpellItems(items), CLOSE_BRACKET);
    case Obj(ms) =>
      MembersAreWellPaired(ms);
      Bracketed(OPEN_BRACE, SpellMembers(ms), CLOSE_BRACE);
    case Number(n) =>
      NumeralUnits(n);
      PlainIsWellPaired(n);
    case _ => PlainIsWellPaired(Spell(v));
  }

  lemma Bracketed(open: CodeUnit, s: Text, close: CodeUnit)
    requires open < 0xd800 && close < 0xd800 && WellPaired(s)
    ensures WellPaired([open] + s + [close])
  {
    PlainIsWellPaired([open]);
    PlainIsWellPaired([close]);
    WellPairedConcat([open], s);
    WellPairedConcat([open] + s, [close]);
  }

  lemma Joined(s: Text, sep: CodeUnit, t: Text)
    requires sep < 0xd800 && WellPaired(s) && WellPaired(t)
    ensures WellPaired(s + [sep] + t)
  {
    PlainIsWellPaired([sep]);
    WellPairedConcat(s, [sep]);
    WellPairedConcat(s + [sep], t);
  }

  lemma {:induction false} ItemsAreWellPaired(items: seq<Value>)
    ensures WellPaired(SpellItems(items))
    decreases items, 0
  {
    if items != [] {
      SpellIsWellPaired(items[0]);
      ItemsAreWellPaired(items[1..]);
      Joined(Spell(items[0]), COMMA, SpellItems(items[1..]));
    }
  }

  lemma {:induction false} MembersAreWellPaired(ms: seq<Member>)
    ensures WellPaired(SpellMembers(ms))
    decreases ms, 0
  {
    if ms != [] {
      QuoteIsWellPaired(ms[0].key);
      SpellIsWellPaired(ms[0].value);
      Joined(Quote(ms[0].key), COLON, Spell(ms[0].value));
      MembersAreWellPaired(ms[1..]);
      Joined(SpellMember(ms[0]), COMMA, SpellMembers(ms[1..]));
    }
  }

  lemma CanonicalTextIsWellPaired(le: KeyOrder, v: Value)
    requires WellFormed(v)
    ensures WellPaired(CanonicalStringify(le, v))
  {
    CanonicalTextSpells(le, v);
    SpellIsWellPaired(Canon(le, v));
  }

  /** The canonical text has no lone surrogate, so its UTF-8 bytes, which are what is hashed and
      signed, determine it. */
  lemma CanonicalTextEncodesLosslessly(le: KeyOrder, v: Value, w: Value)
    requires WellFormed(v) && WellFormed(w)
    ensures Encode(CanonicalStringify(le, v)) == Encode(CanonicalStringify(le, w))
            ==> CanonicalStringify(le, v) == CanonicalStringify(le, w)
  {
    CanonicalTextIsWellPaired(le, v);
    CanonicalTextIsWellPaired(le, w);
    if Encode(CanonicalStringify(le, v)) == Encode(CanonicalStringify(le, w)) {
      EncodeUnique(CanonicalStringify(le, v), CanonicalStringify(le, w));
    }
  }
}
