/** The two evaluators of an endorsement policy, against one specification. */
module EndorsementPolicy {
  import opened Options
  import opened Helpers

  datatype Kind = And | Or | Majority | Min | Other

  datatype Config = Config(kind: Kind, requiredMSPs: seq<string>, minEndorsers: int)

  /** The positions of the required list that are met; a repeated name counts each time. */
  ghost function Met(required: seq<string>, valid: set<string>): set<int> {
    set i | 0 <= i < |required| && required[i] in valid
  }

  /** All, some, or more than half of the required positions. */
  ghost predicate Meets(kind: Kind, required: seq<string>, valid: set<string>)
    requires kind.And? || kind.Or? || kind.Majority?
  {
    match kind
    case And => |Met(required, valid)| == |required|
    case Or => Met(required, valid) != {}
    case Majority => 2 * |Met(required, valid)| > |required|
  }

  /** What the receipt verifier decides, with its rules for the other kinds. */
  ghost predicate Accepts(config: Option<Config>, valid: set<string>) {
    match config
    case None => valid != {}
    case Some(c) =>
      match c.kind
      case Min => |valid| >= c.minEndorsers
      case Other => valid != {}
      case _ => Meets(c.kind, c.requiredMSPs, valid)
  }

  lemma MetGrows(required: seq<string>, k: nat, valid: set<string>)
    requires k < |required|
    ensures Met(required[..k + 1], valid) == Met(required[..k], valid) + if required[k] in valid then {k as int} else {}
    ensures k !in Met(required[..k], valid)
  {}

  lemma {:induction false} MetAtMostAll(required: seq<string>, valid: set<string>)
    ensures |Met(required, valid)| <= |required|
    ensures |Met(required, valid)| == |required| <==> forall m | m in required :: m in valid
  {
    if required != [] {
      var k := |required| - 1;
      assert required == required[..k] + [required[k]];
      assert required[..k + 1] == required;
      MetGrows(required, k, valid);
      MetAtMostAll(required[..k], valid);
      assert Met(required, valid) == Met(required[..k], valid) + if required[k] in valid then {k as int} else {};
    } else {
      assert Met(required, valid) == {};
    }
  }

  /** The counting loop that both evaluators contain. */
  method CountMet(required: seq<string>, valid: set<string>) returns (count: nat)
    ensures count == |Met(required, valid)|
  {
    count := 0;
    assert Met(required[..0], valid) == {};
    for i := 0 to |required|
      invariant count == |Met(required[..i], valid)|
    {
      MetGrows(required, i, valid);
      if required[i] in valid {
        count := count + 1;
      }
    }
    assert required[..|required|] == required;
  }

  function Configured(policyConfig: map<string, Config>, policyID: string): Option<Config> {
    if policyID in policyConfig then Some(policyConfig[policyID]) else None
  }

  /** The receipt verifier's evaluator. */
  method VerifyPolicy(policyConfig: map<string, Config>, policyID: string, valid: set<string>) returns (ok: bool)
    ensures ok <==> Accepts(Configured(policyConfig, policyID), valid)
    ensures policyID !in policyConfig ==> (ok <==> exists msp :: msp in valid)
    ensures policyID in policyConfig ==>
      var required := policyConfig[policyID].requiredMSPs;
      match policyConfig[policyID].kind
      case And => ok <==> forall msp | msp in required :: msp in valid
      case Or => ok <==> exists msp | msp in required :: msp in valid
      case Majority => ok <==> 2 * |set i | 0 <= i < |required| && required[i] in valid| > |required|
      case Min => ok <==> |valid| >= policyConfig[policyID].minEndorsers
      case Other => ok <==> exists msp :: msp in valid
  {
    if policyID !in policyConfig {
      return |valid| > 0;
    }
    var config := policyConfig[policyID];
    var required := config.requiredMSPs;
    MetAtMostAll(required, valid);
    match config.kind {
      case And =>
        for i := 0 to |required|
          invariant forall j | 0 <= j < i :: required[j] in valid
        {
          if required[i] !in valid {
            return false;
          }
        }
        return true;
      case Or =>
        for i := 0 to |required|
          invariant forall j | 0 <= j < i :: required[j] !in valid
        {
          if required[i] in valid {
            assert i in Met(required, valid);
            return true;
          }
        }
        return false;
      case Majority =>
        var count := CountMet(required, valid);
        return count > |required| / 2;
      case Min =>
        return |valid| >= config.minEndorsers;
      case Other =>
        return |valid| > 0;
    }
  }

  datatype Verified = Verified(msp: string, signatureValid: bool, certChainValid: bool)

  datatype Refusal = MissingMSP(msp: string) | NoneValid | TooFew(count: nat, needed: nat) | UnknownKind

  ghost function ValidMSPs(endorsements: seq<Verified>): set<string> {
    set e | e in endorsements && e.signatureValid && e.certChainValid :: e.msp
  }

  /** The extractor's evaluator: the same decision as the verifier's for the three kinds it knows,
      and for a missing organisation the first one in the list. */
  method VerifyEndorsementPolicy(endorsements: seq<Verified>, kind: Kind, required: seq<string>)
    returns (r: Option<Refusal>)
    ensures kind.And? || kind.Or? || kind.Majority? ==>
      (r.None? <==> Accepts(Some(Config(kind, required, 0)), ValidMSPs(endorsements)))
    ensures kind.Min? || kind.Other? ==> r == Some(UnknownKind)
    ensures kind.And? && r.Some? ==>
      exists k | 0 <= k < |required| :: r.value == MissingMSP(required[k]) && required[k] !in ValidMSPs(endorsements)
                                        && forall j | 0 <= j < k :: required[j] in ValidMSPs(endorsements)
  {
    var valid: set<string> := {};
    for i := 0 to |endorsements|
      invariant valid == ValidMSPs(endorsements[..i])
    {
      var e := endorsements[i];
      assert endorsements[..i + 1] == endorsements[..i] + [e];
      if e.signatureValid && e.certChainValid {
        valid := valid + {e.msp};
      }
    }
    assert endorsements[..|endorsements|] == endorsements;
    MetAtMostAll(required, valid);
    match kind {
      case And =>
        for i := 0 to |required|
          invariant forall j | 0 <= j < i :: required[j] in valid
        {
          if required[i] !in valid {
            return Some(MissingMSP(required[i]));
          }
        }
        return None;
      case Or =>
        for i := 0 to |required|
          invariant forall j | 0 <= j < i :: required[j] !in valid
        {
          if required[i] in valid {
            assert i in Met(required, valid);
            return None;
          }
        }
        return Some(NoneValid);
      case Majority =>
        var count := CountMet(required, valid);
        var majority := |required| / 2 + 1;
        if count >= majority {
          return None;
        }
        return Some(TooFew(count, majority));
      case Min =>
        return Some(UnknownKind);
      case Other =>
        return Some(UnknownKind);
    }
  }

  /** More valid organisations never turn an accepted policy into a refused one. */
  lemma Monotone(config: Option<Config>, fewer: set<string>, more: set<string>)
    requires fewer <= more && Accepts(config, fewer)
    ensures Accepts(config, more)
  {
    SubsetSize(fewer, more);
    if config.Some? {
      var required := config.value.requiredMSPs;
      SubsetSize(Met(required, fewer), Met(required, more));
      MetAtMostAll(required, more);
    }
  }

  function MetOrgs(required: seq<string>, valid: set<string>): set<string> { set m | m in required && m in valid }

  lemma MetOrgsGrow(front: seq<string>, last: string, valid: set<string>)
    requires last !in front
    ensures MetOrgs(front + [last], valid) == MetOrgs(front, valid) + if last in valid then {last} else {}
    ensures |MetOrgs(front + [last], valid)| == |MetOrgs(front, valid)| + if last in valid then 1 else 0
  {
    assert last !in MetOrgs(front, valid);
    assert forall m :: m in front + [last] <==> m in front || m == last;
  }

  lemma MetCountGrows(front: seq<string>, last: string, valid: set<string>)
    ensures |Met(front + [last], valid)| == |Met(front, valid)| + if last in valid then 1 else 0
  {
    var all := front + [last];
    assert all[..|front|] == front && all[..|front| + 1] == all;
    MetGrows(all, |front|, valid);
  }

  /** With no repeated names the rules have their usual reading as sets of organisations. */
  lemma {:induction false} MetAsOrganisations(required: seq<string>, valid: set<string>)
    requires forall i, j | 0 <= i < j < |required| :: required[i] != required[j]
    ensures |Met(required, valid)| == |MetOrgs(required, valid)|
  {
    if required == [] {
      assert Met(required, valid) == {} && MetOrgs(required, valid) == {};
    } else {
      var front, last := required[..|required| - 1], required[|required| - 1];
      assert required == front + [last];
      MetAsOrganisations(front, valid);
      MetCountGrows(front, last, valid);
      MetOrgsGrow(front, last, valid);
    }
  }
}
