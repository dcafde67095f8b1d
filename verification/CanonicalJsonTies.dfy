/** Which values print alike in every key order: exactly those without level keys. */
module CanonicalJsonTies {
  import opened JsonText
  import opened Sorting
  import opened CanonicalJson
  import opened JsonRoundTrip
  import opened CanonicalJsonExact

  lemma {:induction false} SameAsItself(v: Value)
    ensures Same(v, v)
    decreases v
  {
    match v
    case Arr(items) => forall i | 0 <= i < |items| { SameAsItself(items[i]); }
    case Obj(ms) => forall i | 0 <= i < |ms| ensures HasPartner(v, v, i) { SameAsItself(ms[i].value); }
    case _ =>
  }

  lemma NoDupRearranged<T>(s: seq<T>, t: seq<T>)
    requires NoDup(s) && multiset(s) == multiset(t)
    ensures NoDup(t)
  {
    forall i, j | 0 <= i < j < |t| ensures t[i] != t[j] {
      CountAtMostOne(s, t[i]);
      assert t == t[..i] + [t[i]] + t[i + 1..j] + [t[j]] + t[j + 1..];
      assert t[i] == t[j] ==> multiset(t)[t[i]] >= 2;
    }
  }

  lemma NotBothOrders<T>(s: seq<T>, a: T, b: T)
    requires NoDup(s) && Precedes(s, a, b)
    ensures !Precedes(s, b, a)
  {
    var i, j :| 0 <= i < j < |s| && s[i] == a && s[j] == b;
    assert forall k, l | 0 <= k < |s| && 0 <= l < |s| && s[k] == b && s[l] == a :: k == j && l == i;
  }

  /** `ms` with two members changing places. */
  function Swapped(ms: seq<Member>, i: nat, j: nat): seq<Member>
    requires i < |ms| && j < |ms|
  {
    ms[i := ms[j]][j := ms[i]]
  }

  lemma SwappedIsSame(ms: seq<Member>, i: nat, j: nat)
    requires i < j < |ms| && WellFormed(Obj(ms))
    ensures WellFormed(Obj(Swapped(ms, i, j))) && Same(Obj(ms), Obj(Swapped(ms, i, j)))
  {
    var v, w := Obj(ms), Obj(Swapped(ms, i, j));
    forall k | 0 <= k < |ms| ensures HasPartner(v, w, k) {
      SameAsItself(ms[k].value);
      var l := if k == i then j else if k == j then i else k;
      assert w.members[l] == ms[k];
    }
  }

  lemma TwoOrdersDiffer<K>(le: (K, K) -> bool, xs: seq<K>, ys: seq<K>, i: nat, j: nat)
    requires NoDup(xs) && i < j < |xs| == |ys| && ys[i] == xs[j] && ys[j] == xs[i]
    requires le(xs[i], xs[j]) && le(xs[j], xs[i])
    ensures Sort(le, xs) != Sort(le, ys)
  {
    SortIsStable(le, xs, i, j);
    SortIsStable(le, ys, i, j);
    SortRearranges(le, xs);
    NoDupRearranged(xs, Sort(le, xs));
    NotBothOrders(Sort(le, xs), xs[i], xs[j]);
  }

  /** Two level keys that change places change the canonical value. */
  lemma SwapShows(le: KeyOrder, ms: seq<Member>, i: nat, j: nat)
    requires i < j < |ms| && DistinctKeys(ms) && Tied(le, ms[i].key, ms[j].key)
    ensures Canon(le, Obj(ms)) != Canon(le, Obj(Swapped(ms, i, j)))
  {
    var xs, ys := CanonMembers(le, ms), CanonMembers(le, Swapped(ms, i, j));
    assert ys[i] == xs[j] && ys[j] == xs[i];
    assert NoDup(xs);
    TwoOrdersDiffer((a, b) => ByKey(le, a, b), xs, ys, i, j);
  }

  /** A member's value shows in the canonical value of its object. */
  lemma MemberShows(le: KeyOrder, ms: seq<Member>, i: nat, x: Value)
    requires i < |ms| && DistinctKeys(ms) && Canon(le, ms[i].value) != Canon(le, x)
    ensures Canon(le, Obj(ms)) != Canon(le, Obj(ms[i := Member(ms[i].key, x)]))
  {
    var byKey := (a, b) => ByKey(le, a, b);
    var ns := ms[i := Member(ms[i].key, x)];
    var xs, ys := CanonMembers(le, ms), CanonMembers(le, ns);
    SortRearranges(byKey, xs);
    SortRearranges(byKey, ys);
    forall k | 0 <= k < |ys| ensures ys[k] != xs[i] {
      assert ns[k].key == ms[k].key;
    }
    assert xs[i] in Sort(byKey, xs) && xs[i] !in Sort(byKey, ys);
  }

  lemma ItemReplaced(le: KeyOrder, items: seq<Value>, i: nat, x: Value)
    requires i < |items| && WellFormed(Arr(items)) && WellFormed(x)
    requires Same(items[i], x) && Canon(le, items[i]) != Canon(le, x)
    ensures
      var v, w := Arr(items), Arr(items[i := x]);
      WellFormed(w) && Same(v, w) && Canon(le, v) != Canon(le, w)
  {
    forall k | 0 <= k < |items| ensures Same(items[k], items[i := x][k]) { SameAsItself(items[k]); }
    assert CanonItems(le, items)[i] != CanonItems(le, items[i := x])[i];
  }

  lemma MemberReplaced(le: KeyOrder, ms: seq<Member>, i: nat, x: Value)
    requires i < |ms| && WellFormed(Obj(ms)) && WellFormed(x)
    requires Same(ms[i].value, x) && Canon(le, ms[i].value) != Canon(le, x)
    ensures
      var v, w := Obj(ms), Obj(ms[i := Member(ms[i].key, x)]);
      WellFormed(w) && Same(v, w) && Canon(le, v) != Canon(le, w)
  {
    var v, w := Obj(ms), Obj(ms[i := Member(ms[i].key, x)]);
    forall k | 0 <= k < |ms| ensures HasPartner(v, w, k) {
      SameAsItself(ms[k].value);
      assert w.members[k].key == ms[k].key;
    }
    MemberShows(le, ms, i, x);
  }

  /** A value with level keys somewhere has a twin, equal up to key order, whose canonical value
      differs. */
  lemma {:induction false} TieShows(le: KeyOrder, v: Value) returns (w: Value)
    requires WellFormed(v) && !Untied(le, v)
    ensures WellFormed(w) && Same(v, w) && Canon(le, v) != Canon(le, w)
    decreases v
  {
    match v
    case Arr(items) =>
      var i :| 0 <= i < |items| && !Untied(le, items[i]);
      var x := TieShows(le, items[i]);
      ItemReplaced(le, items, i, x);
      w := Arr(items[i := x]);
    case Obj(ms) =>
      if i, j :| 0 <= i < j < |ms| && Tied(le, ms[i].key, ms[j].key) {
        w := Obj(Swapped(ms, i, j));
        SwappedIsSame(ms, i, j);
        SwapShows(le, ms, i, j);
      } else {
        var i :| 0 <= i < |ms| && !Untied(le, ms[i].value);
        var x := TieShows(le, ms[i].value);
        MemberReplaced(le, ms, i, x);
        w := Obj(ms[i := Member(ms[i].key, x)]);
      }
  }

  lemma SameTextSameCanon(le: KeyOrder, v: Value, w: Value)
    requires WellFormed(v) && WellFormed(w)
    ensures CanonicalStringify(le, v) == CanonicalStringify(le, w) <==> Canon(le, v) == Canon(le, w)
  {
    CanonicalTextSpells(le, v);
    CanonicalTextSpells(le, w);
    CanonIsPlain(le, v);
    CanonIsPlain(le, w);
    assert Spell(Canon(le, v)) + [] == Spell(Canon(le, v)) && Spell(Canon(le, w)) + [] == Spell(Canon(le, w));
    if CanonicalStringify(le, v) == CanonicalStringify(le, w) {
      SpellUnique(Canon(le, v), Canon(le, w), [], []);
    }
  }

  /** The exact condition, value by value: `v` prints the same in every key order if and only if no
      object in it has two different keys that the comparator puts level. */
  lemma OrderForgottenIffUntied(le: KeyOrder, v: Value)
    requires TotalPreorder(le) && WellFormed(v)
    ensures Untied(le, v) <==>
      forall w | WellFormed(w) && Same(v, w) :: CanonicalStringify(le, w) == CanonicalStringify(le, v)
  {
    if Untied(le, v) {
      forall w | WellFormed(w) && Same(v, w) ensures CanonicalStringify(le, w) == CanonicalStringify(le, v) {
        CanonicalPrintingIsExact(le, v, w);
      }
    } else {
      var w := TieShows(le, v);
      SameTextSameCanon(le, v, w);
    }
  }

  lemma TiedKeysKeepTheirOrder(le: KeyOrder, a: Text, b: Text)
    requires a != b && le(a, b) && le(b, a)
    ensures var v, w := Obj([Member(a, Null), Member(b, Null)]), Obj([Member(b, Null), Member(a, Null)]);
      WellFormed(v) && WellFormed(w) && Same(v, w) && CanonicalStringify(le, v) != CanonicalStringify(le, w)
  {
    var x, y := Member(a, Null), Member(b, Null);
    var v, w := Obj([x, y]), Obj([y, x]);
    assert v.members[0] == w.members[1] && v.members[1] == w.members[0];
    assert HasPartner(v, w, 0) && HasPartner(v, w, 1);
    assert Same(v, w);
    CanonicalTextSpells(le, v);
    CanonicalTextSpells(le, w);
    assert CanonMembers(le, [x, y]) == [x, y] && CanonMembers(le, [y, x]) == [y, x];
    TwoTied(le, x, y);
    TwoTied(le, y, x);
    if Spell(Canon(le, v)) == Spell(Canon(le, w)) {
      CanonIsPlain(le, v);
      CanonIsPlain(le, w);
      assert Spell(Canon(le, v)) + [] == Spell(Canon(le, w)) + [];
      SpellUnique(Canon(le, v), Canon(le, w), [], []);
      assert false;
    }
  }

  lemma TwoTied(le: KeyOrder, x: Member, y: Member)
    requires le(x.key, y.key)
    ensures Sort((a, b) => ByKey(le, a, b), [x, y]) == [x, y]
  {
    assert [x, y][1..] == [y];
    assert Sort((a, b) => ByKey(le, a, b), [y]) == [y];
  }
}
