/** Recognising a signature policy that is a plain OR over its identities, and printing it. */
module OrPolicy {
  import opened Options
  import opened Sorting

  datatype Rule =
    | SignedBy(index: int)
    | NOutOf(n: int, rules: seq<Rule>)
    | EmptyNOutOf
    | Untyped

  datatype Principal = Role(msp: string, isPeer: bool) | Undecodable | OtherClassification

  datatype Envelope = Envelope(identities: seq<Principal>, rule: Option<Rule>)

  datatype Error = NoEnvelope | UnsupportedPrincipal | BadPrincipal | UnsupportedRole | UnsupportedShape

  // ---------------------------------------------------------------------- what a rule means

  /** A threshold rule asks for `n` satisfied parts; `signers` are positions in the identities. */
  predicate Satisfied(rule: Rule, signers: set<int>)
    decreases rule
  {
    match rule
    case SignedBy(i) => i in signers
    case NOutOf(n, rules) => SatisfiedCount(rules, signers) >= n
    case EmptyNOutOf => false
    case Untyped => false
  }

  function SatisfiedCount(rules: seq<Rule>, signers: set<int>): nat
    decreases rules
  {
    if rules == [] then 0
    else (if Satisfied(rules[0], signers) then 1 else 0) + SatisfiedCount(rules[1..], signers)
  }

  lemma {:induction false} SomeSatisfied(rules: seq<Rule>, signers: set<int>)
    ensures SatisfiedCount(rules, signers) >= 1 <==> exists r :: r in rules && Satisfied(r, signers)
  {
    if rules != [] {
      SomeSatisfied(rules[1..], signers);
      if Satisfied(rules[0], signers) {
        assert rules[0] in rules;
      } else if r :| r in rules && Satisfied(r, signers) {
        assert r in rules[1..];
      }
    }
  }

  // ------------------------------------------------------------------------ the recogniser

  /** 1-of-n whose parts are the n positions, each exactly once. */
  ghost predicate IsPlainOr(rule: Option<Rule>, identities: nat) {
    && rule.Some? && rule.value.NOutOf? && rule.value.n == 1
    && multiset(rule.value.rules) == multiset(seq(identities, i => SignedBy(i)))
  }

  ghost predicate Distinct<T>(s: seq<T>) { forall i, j | 0 <= i < j < |s| :: s[i] != s[j] }

  lemma {:induction false} DistinctCounts<T>(s: seq<T>)
    requires Distinct(s)
    ensures multiset(s) == multiset(set x | x in s)
  {
    if s != [] {
      var front, last := s[..|s| - 1], s[|s| - 1];
      assert s == front + [last];
      DistinctCounts(front);
      assert last !in front;
      assert (set x | x in s) == (set x | x in front) + {last};
    }
  }

  /** Rearranging a list without repetitions gives no repetitions. */
  lemma DistinctRearranged<T>(s: seq<T>, t: seq<T>)
    requires Distinct(s) && multiset(s) == multiset(t)
    ensures Distinct(t)
  {
    DistinctCounts(s);
    forall i, j | 0 <= i < j < |t| ensures t[i] != t[j] {
      assert t == t[..i] + [t[i]] + t[i + 1..j] + [t[j]] + t[j + 1..];
      assert t[i] == t[j] ==> multiset(t)[t[i]] >= 2;
    }
  }

  /** The recogniser's loop. */
  method IsORPolicyRule(rule: Option<Rule>, identities: nat) returns (ok: bool)
    ensures ok <==> IsPlainOr(rule, identities)
  {
    if rule.None? || !rule.value.NOutOf? {
      return false;
    }
    var n, rules := rule.value.n, rule.value.rules;
    if n != 1 || |rules| != identities {
      PlainOrShape(rule, identities);
      return false;
    }
    var seen: set<int> := {};
    for k := 0 to |rules|
      invariant forall i | 0 <= i < k :: rules[i].SignedBy? && 0 <= rules[i].index < identities
      invariant forall i, j | 0 <= i < j < k :: rules[i] != rules[j]
      invariant seen == set i | 0 <= i < k && rules[i].SignedBy? :: rules[i].index
      invariant |seen| == k
    {
      var sub := rules[k];
      if !sub.SignedBy? || sub.index < 0 || sub.index >= identities || sub.index in seen {
        PlainOrShape(rule, identities);
        return false;
      }
      seen := seen + {sub.index};
    }
    PlainOrFound(rules, identities);
    return |seen| == identities;
  }

  lemma PlainOrShape(rule: Option<Rule>, identities: nat)
    ensures IsPlainOr(rule, identities) ==>
      && |rule.value.rules| == identities && Distinct(rule.value.rules)
      && forall r | r in rule.value.rules :: r.SignedBy? && 0 <= r.index < identities
  {
    if !IsPlainOr(rule, identities) {
      return;
    }
    var all := seq(identities, i => SignedBy(i));
    var rules := rule.value.rules;
    assert |multiset(rules)| == |multiset(all)|;
    assert forall i, j | 0 <= i < j < |all| :: all[i] != all[j];
    DistinctRearranged(all, rules);
    forall r | r in rules ensures r.SignedBy? && 0 <= r.index < identities {
      assert r in multiset(all);
    }
  }

  lemma PlainOrFound(rules: seq<Rule>, identities: nat)
    requires |rules| == identities && Distinct(rules)
    requires forall r | r in rules :: r.SignedBy? && 0 <= r.index < identities
    ensures multiset(rules) == multiset(seq(identities, i => SignedBy(i)))
  {
    var all := seq(identities, i => SignedBy(i));
    assert forall i, j | 0 <= i < j < |all| :: all[i] != all[j];
    DistinctCounts(rules);
    DistinctCounts(all);
    var mine, theirs := set r | r in rules, set r | r in all;
    assert |multiset(rules)| == |multiset(mine)| == |mine| == identities;
    assert |multiset(all)| == |multiset(theirs)| == |theirs| == identities;
    assert mine <= theirs by {
      forall r | r in mine ensures r in theirs { assert all[r.index] == r; }
    }
    SubsetOfSameSize(mine, theirs);
  }

  lemma SubsetOfSameSize<T>(a: set<T>, b: set<T>)
    requires a <= b && |a| == |b|
    ensures a == b
  {
    assert b == a + (b - a);
  }

  /** An accepted rule holds exactly when some listed identity signs. */
  lemma AcceptedMeansAnyIdentity(rule: Option<Rule>, identities: nat, signers: set<int>)
    requires IsPlainOr(rule, identities)
    ensures Satisfied(rule.value, signers) <==> exists i :: 0 <= i < identities && i in signers
  {
    var rules, all := rule.value.rules, seq(identities, i => SignedBy(i));
    SomeSatisfied(rules, signers);
    forall i | 0 <= i < identities ensures SignedBy(i) in rules {
      assert all[i] in multiset(all);
      assert SignedBy(i) in multiset(rules);
    }
    forall r | r in rules ensures r.SignedBy? && 0 <= r.index < identities {
      assert r in multiset(all);
    }
    if Satisfied(rule.value, signers) {
      var r :| r in rules && Satisfied(r, signers);
      assert r.index in signers;
    }
    if i :| 0 <= i < identities && i in signers {
      assert Satisfied(SignedBy(i), signers);
    }
  }

  // --------------------------------------------------------------------------- the printed form

  predicate LexLe(a: string, b: string) {
    a == [] || (b != [] && (a[0] < b[0] || (a[0] == b[0] && LexLe(a[1..], b[1..]))))
  }

  lemma {:induction false} LexTotal(a: string, b: string)
    ensures LexLe(a, b) || LexLe(b, a)
    ensures LexLe(a, b) && LexLe(b, a) ==> a == b
  {
    if a != [] && b != [] && a[0] == b[0] {
      LexTotal(a[1..], b[1..]);
      assert a == [a[0]] + a[1..] && b == [b[0]] + b[1..];
    }
  }

  lemma {:induction false} LexTransitive(a: string, b: string, c: string)
    requires LexLe(a, b) && LexLe(b, c)
    ensures LexLe(a, c)
  {
    if a != [] && b != [] && c != [] && a[0] == b[0] == c[0] {
      LexTransitive(a[1..], b[1..], c[1..]);
    }
  }

  /** The order of a dictionary: the first difference decides, and a prefix comes first. */
  lemma {:induction false} LexMeans(a: string, b: string)
    ensures LexLe(a, b) <==> a <= b || exists k | 0 <= k < |a| && k < |b| :: a[..k] == b[..k] && a[k] < b[k]
  {
    if a != [] && b != [] {
      if a[0] == b[0] {
        LexMeans(a[1..], b[1..]);
        assert a == [a[0]] + a[1..] && b == [b[0]] + b[1..];
        if k :| 0 <= k < |a| - 1 && k < |b| - 1 && a[1..][..k] == b[1..][..k] && a[1..][k] < b[1..][k] {
          assert a[..k + 1] == [a[0]] + a[1..][..k] && b[..k + 1] == [b[0]] + b[1..][..k];
        }
        if k :| 0 <= k < |a| && k < |b| && a[..k] == b[..k] && a[k] < b[k] {
          assert a[1..][..k - 1] == a[..k][1..] && b[1..][..k - 1] == b[..k][1..];
          assert a[1..][k - 1] < b[1..][k - 1];
        }
      } else if a[0] < b[0] {
        assert a[..0] == b[..0];
      } else {
        assert forall k | 0 < k < |a| && k < |b| :: a[..k][0] == a[0] && b[..k][0] == b[0];
      }
    }
  }

  lemma LexOrders()
    ensures TotalPreorder(LexLe) && NoTies(LexLe)
  {
    forall a, b ensures LexLe(a, b) || LexLe(b, a) { LexTotal(a, b); }
    forall a, b | LexLe(a, b) && LexLe(b, a) ensures a == b { LexTotal(a, b); }
    forall a, b, c | LexLe(a, b) && LexLe(b, c) ensures LexLe(a, c) { LexTransitive(a, b, c); }
  }

  function Parts(msps: seq<string>): string {
    if msps == [] then ""
    else "'" + msps[0] + ".peer'" + (if |msps| == 1 then "" else "," + Parts(msps[1..]))
  }

  function Printed(msps: seq<string>): string { "OR(" + Parts(Sort(LexLe, msps)) + ")" }

  lemma {:induction false} PartsGrow(msps: seq<string>, last: string)
    ensures Parts([]) == ""
    ensures Parts(msps + [last]) == (if msps == [] then "" else Parts(msps) + ",") + "'" + last + ".peer'"
  {
    if msps != [] {
      PartsGrow(msps[1..], last);
      assert (msps + [last])[1..] == msps[1..] + [last];
    }
  }

  /** The text lists the organisations in dictionary order, each quoted as its peer role, with
      commas between them. */
  lemma PrintedLists(msps: seq<string>)
    ensures exists sorted: seq<string> ::
      && multiset(sorted) == multiset(msps)
      && (forall i, j | 0 <= i < j < |sorted| :: LexLe(sorted[i], sorted[j]))
      && Printed(msps) == "OR(" + Parts(sorted) + ")"
  {
    LexOrders();
    var sorted := Sort(LexLe, msps);
    SortRearranges(LexLe, msps);
    SortSorts(LexLe, msps);
  }

  function PrincipalError(p: Principal): Option<Error> {
    match p
    case OtherClassification => Some(UnsupportedPrincipal)
    case Undecodable => Some(BadPrincipal)
    case Role(_, isPeer) => if isPeer then None else Some(UnsupportedRole)
  }

  ghost predicate AllPeers(ids: seq<Principal>) { forall p | p in ids :: PrincipalError(p).None? }

  function Msps(ids: seq<Principal>): seq<string> {
    seq(|ids|, i requires 0 <= i < |ids| => if ids[i].Role? then ids[i].msp else "")
  }

  /** Prints exactly the plain ORs over peers; the first principal it cannot print decides the
      error. */
  method SignatureEnvelopeToPolicy(env: Option<Envelope>) returns (r: Result<string, Error>)
    ensures env.None? ==> r == Err(NoEnvelope)
    ensures env.Some? ==>
      (r.Ok? <==> AllPeers(env.value.identities) && IsPlainOr(env.value.rule, |env.value.identities|))
    ensures r.Ok? ==> r.value == Printed(Msps(env.value.identities))
    ensures r.Ok? ==> forall p | p in env.value.identities :: p.Role? && p.isPeer
    ensures env.Some? && AllPeers(env.value.identities) && r.Err? ==> r.error == UnsupportedShape
    ensures env.Some? && !AllPeers(env.value.identities) ==>
      exists i | 0 <= i < |env.value.identities| ::
        && (forall p | p in env.value.identities[..i] :: p.Role? && p.isPeer)
        && match env.value.identities[i]
           case OtherClassification => r.error == UnsupportedPrincipal
           case Undecodable => r.error == BadPrincipal
           case Role(_, isPeer) => !isPeer && r.error == UnsupportedRole
  {
    if env.None? {
      return Err(NoEnvelope);
    }
    var ids := env.value.identities;
    var mspIDs: seq<string> := [];
    for i := 0 to |ids|
      invariant AllPeers(ids[..i])
      invariant |mspIDs| == i && forall j | 0 <= j < i :: ids[j].Role? && mspIDs[j] == ids[j].msp
    {
      var error := PrincipalError(ids[i]);
      if error.Some? {
        return Err(error.value);
      }
      mspIDs := mspIDs + [ids[i].msp];
      assert ids[..i + 1] == ids[..i] + [ids[i]];
    }
    assert ids[..|ids|] == ids;
    var plain := IsORPolicyRule(env.value.rule, |mspIDs|);
    if !plain {
      return Err(UnsupportedShape);
    }
    assert mspIDs == Msps(ids);
    return Ok(Printed(mspIDs));
  }

  predicate NoQuote(s: string) { '\'' !in s }

  lemma {:induction false} SplitAtQuote(x: string, s: string, y: string, t: string)
    requires NoQuote(x) && NoQuote(y) && x + "'" + s == y + "'" + t
    ensures x == y && s == t
  {
    var left, right := x + "'" + s, y + "'" + t;
    assert left[0] == (if x == [] then '\'' else x[0]) && right[0] == (if y == [] then '\'' else y[0]);
    assert left[1..] == (if x == [] then s else x[1..] + "'" + s);
    assert right[1..] == (if y == [] then t else y[1..] + "'" + t);
    if x != [] && y != [] {
      SplitAtQuote(x[1..], s, y[1..], t);
    }
  }

  function Rest(msps: seq<string>): string
    requires msps != []
  {
    if |msps| == 1 then "" else "," + Parts(msps[1..])
  }

  lemma PartShape(msps: seq<string>)
    requires msps != [] && NoQuote(msps[0])
    ensures Parts(msps) != "" && Parts(msps)[1..] == (msps[0] + ".peer") + "'" + Rest(msps)
    ensures NoQuote(msps[0] + ".peer")
  {
    var tail := msps[0] + ".peer'" + Rest(msps);
    assert Parts(msps) == "'" + tail;
    assert ".peer'" == ".peer" + "'";
    assert NoQuote(".peer");
  }

  lemma FirstPart(a: seq<string>, b: seq<string>)
    requires a != [] && b != [] && NoQuote(a[0]) && NoQuote(b[0]) && Parts(a) == Parts(b)
    ensures a[0] == b[0] && Rest(a) == Rest(b)
  {
    var x, y := a[0] + ".peer", b[0] + ".peer";
    PartShape(a);
    PartShape(b);
    SplitAtQuote(x, Rest(a), y, Rest(b));
    assert x[..|a[0]|] == a[0] && y[..|b[0]|] == b[0];
  }

  lemma {:induction false} PartsUnique(a: seq<string>, b: seq<string>)
    requires Parts(a) == Parts(b)
    requires (forall m | m in a :: NoQuote(m)) && (forall m | m in b :: NoQuote(m))
    ensures a == b
  {
    if a != [] && b != [] {
      FirstPart(a, b);
      if |a| > 1 && |b| > 1 {
        assert Rest(a)[1..] == Parts(a[1..]) && Rest(b)[1..] == Parts(b[1..]);
        PartsUnique(a[1..], b[1..]);
      }
      assert a == [a[0]] + a[1..] && b == [b[0]] + b[1..];
    }
  }

  /** The printed policy says which organisations are listed and how often, and nothing else. */
  lemma PrintedIsExact(a: seq<string>, b: seq<string>)
    ensures multiset(a) == multiset(b) ==> Printed(a) == Printed(b)
    ensures (forall m | m in a :: NoQuote(m)) && (forall m | m in b :: NoQuote(m)) && Printed(a) == Printed(b) ==>
      multiset(a) == multiset(b)
  {
    LexOrders();
    if multiset(a) == multiset(b) {
      SortForgetsOrder(LexLe, a, b);
    } else if (forall m | m in a :: NoQuote(m)) && (forall m | m in b :: NoQuote(m)) && Printed(a) == Printed(b) {
      var x, y := Sort(LexLe, a), Sort(LexLe, b);
      SortRearranges(LexLe, a);
      SortRearranges(LexLe, b);
      assert Printed(a)[3..|Printed(a)| - 1] == Parts(x) && Printed(b)[3..|Printed(b)| - 1] == Parts(y);
      PartsUnique(x, y);
    }
  }
}
