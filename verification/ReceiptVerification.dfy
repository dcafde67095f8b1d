/** Verifying a receipt: every finding, and exactly which receipts are valid. */
module ReceiptVerification {
  import opened Options
  import opened Receipts
  import EndorsementPolicy

  datatype Certificate = Certificate(notBefore: int, notAfter: int)

  /** What the X.509 library says: the certificate in a DER block, and whether it chains to the
      trusted roots of an organisation at a time. */
  datatype X509 = X509(parse: string -> Option<Certificate>, chains: (string, string, int) -> bool)

  /** A verifier's configuration; `trusted` are the organisations with a trusted authority. */
  datatype Verifier = Verifier(trusted: set<string>, policies: map<string, EndorsementPolicy.Config>,
                               allowExpiredCerts: bool)

  const HOUR_NANOS := 3_600_000_000_000

  datatype EndorsementResult = EndorsementResult(msp: string, signatureValid: bool, certChainValid: bool,
                                                 certExpired: bool)

  /** Revocation checking always answers "not revoked", so it has no part in the result. */
  function VerifyEndorsement(lib: Library, x: X509, v: Verifier, e: Endorsement, now: int): EndorsementResult {
    if e.certificatePEM == "" then EndorsementResult(e.msp, e.signatureValid, e.certChainValid, false)
    else
      var block := lib.pem(e.certificatePEM);
      if block.None? then EndorsementResult(e.msp, false, false, false)
      else
        var cert := x.parse(block.value);
        if cert.None? then EndorsementResult(e.msp, false, false, false)
        else
          var expired := now < cert.value.notBefore || now > cert.value.notAfter;
          var at := if v.allowExpiredCerts then cert.value.notBefore + HOUR_NANOS else now;
          var chain := if e.msp in v.trusted then x.chains(e.msp, block.value, at) else e.certChainValid;
          EndorsementResult(e.msp, e.signatureValid,
                            chain && e.certFingerprint == lib.sha256(block.value), expired)
  }

  predicate CountsAsValid(r: EndorsementResult) { r.signatureValid && r.certChainValid && !r.certExpired }

  /** Whether the certificate in an endorsement bears it out: readable, in date, with the recorded
      fingerprint, and chaining to its organisation's roots or, without roots, recorded as doing so. */
  ghost predicate BorneOut(lib: Library, x: X509, v: Verifier, e: Endorsement, der: string, now: int) {
    && x.parse(der).Some?
    && x.parse(der).value.notBefore <= now <= x.parse(der).value.notAfter
    && e.certFingerprint == lib.sha256(der)
    && if e.msp !in v.trusted then e.certChainValid
       else if v.allowExpiredCerts then x.chains(e.msp, der, x.parse(der).value.notBefore + 3_600_000_000_000)
       else x.chains(e.msp, der, now)
  }

  /** What makes an endorsement count, read off its fields, the library and the configuration. */
  ghost predicate Believed(lib: Library, x: X509, v: Verifier, e: Endorsement, now: int) {
    && e.signatureValid
    && if e.certificatePEM == "" then e.certChainValid
       else lib.pem(e.certificatePEM).Some? && BorneOut(lib, x, v, e, lib.pem(e.certificatePEM).value, now)
  }

  /** The verifier counts an endorsement exactly when it is to be believed. */
  lemma CountsIffBelieved(lib: Library, x: X509, v: Verifier, e: Endorsement, now: int)
    ensures CountsAsValid(VerifyEndorsement(lib, x, v, e, now)) <==> Believed(lib, x, v, e, now)
  {}

  ghost function ValidMSPs(lib: Library, x: X509, v: Verifier, es: seq<Endorsement>, now: int): set<string> {
    set e | e in es && Believed(lib, x, v, e, now) :: e.msp
  }

  /** An endorsement that carries no proof at all: no certificate and no positive flag. */
  predicate Bare(e: Endorsement) { e.certificatePEM == "" && !e.signatureValid && !e.certChainValid }

  ghost predicate PolicySatisfied(lib: Library, x: X509, v: Verifier, r: Receipt, now: int) {
    || EndorsementPolicy.Accepts(EndorsementPolicy.Configured(v.policies, r.policyID),
                                 ValidMSPs(lib, x, v, r.endorsements, now))
    || (r.validationCode == 0 && r.endorsements != [] && forall e | e in r.endorsements :: Bare(e))
  }

  datatype Finding =
    | HashMismatch | CommitmentMismatch | OpeningMismatch | NotValidated | PolicyNotSatisfied | NoEndorsements

  ghost predicate Applies(f: Finding, lib: Library, x: X509, v: Verifier, r: Receipt, expected: string, now: int) {
    match f
    case HashMismatch => !HashValid(lib, r)
    case CommitmentMismatch => expected != "" && r.commitmentHash != expected
    case OpeningMismatch => !OpeningValid(lib, r)
    case NotValidated => r.validationCode != 0
    case PolicyNotSatisfied => !PolicySatisfied(lib, x, v, r, now)
    case NoEndorsements => r.endorsements == []
  }

  /** The receipt itself, and nothing about how the result was put together. */
  ghost predicate Trustworthy(lib: Library, x: X509, v: Verifier, r: Receipt, expected: string, now: int) {
    && r.receiptHash == lib.hashView(View(r)) && (expected == "" || r.commitmentHash == expected)
    && (r.commitmentOpening.Some? ==> r.commitmentHash == lib.hashCommitment(r.commitmentOpening.value))
    && r.validationCode == 0 && r.endorsements != [] && PolicySatisfied(lib, x, v, r, now)
  }

  datatype Warning = OpeningMissing | PolicyFromLedger | BlockNumberZero

  datatype Verification = Verification(
    valid: bool, errors: seq<Finding>, warnings: seq<Warning>, receiptHashValid: bool, commitmentHashMatch: bool,
    commitmentOpeningValid: bool, validationCodeValid: bool, policySatisfied: bool,
    endorsementResults: seq<EndorsementResult>)

  method CanTrustLedgerValidationFallback(r: Receipt, results: seq<EndorsementResult>) returns (ok: bool)
    ensures ok <==> r.validationCode == 0 && r.endorsements != []
                    && (forall er | er in results :: !er.signatureValid || !er.certChainValid || er.certExpired)
                    && (forall e | e in r.endorsements ::
                          e.certificatePEM == "" && !e.signatureValid && !e.certChainValid)
  {
    if r.validationCode != 0 || |r.endorsements| == 0 {
      return false;
    }
    for i := 0 to |results|
      invariant forall j | 0 <= j < i :: !CountsAsValid(results[j])
    {
      if CountsAsValid(results[i]) {
        return false;
      }
    }
    for i := 0 to |r.endorsements|
      invariant forall j | 0 <= j < i :: Bare(r.endorsements[j])
    {
      var e := r.endorsements[i];
      if e.certificatePEM != "" || e.signatureValid || e.certChainValid {
        assert e in r.endorsements && !Bare(e);
        return false;
      }
    }
    return true;
  }

  /** One result for each endorsement in order, which counts exactly when that is to be believed. */
  ghost predicate Judged(lib: Library, x: X509, v: Verifier, es: seq<Endorsement>, results: seq<EndorsementResult>,
                         now: int) {
    && |results| == |es|
    && forall i | 0 <= i < |es| ::
         && results[i] == VerifyEndorsement(lib, x, v, es[i], now) && results[i].msp == es[i].msp
         && (results[i].signatureValid && results[i].certChainValid && !results[i].certExpired
             <==> Believed(lib, x, v, es[i], now))
  }

  method JudgeEndorsements(lib: Library, x: X509, v: Verifier, es: seq<Endorsement>, now: int)
    returns (results: seq<EndorsementResult>, validMSPs: set<string>)
    ensures Judged(lib, x, v, es, results, now)
    ensures validMSPs == set e | e in es && Believed(lib, x, v, e, now) :: e.msp
  {
    results, validMSPs := [], {};
    for i := 0 to |es|
      invariant |results| == i && forall j | 0 <= j < i :: results[j] == VerifyEndorsement(lib, x, v, es[j], now)
      invariant validMSPs == ValidMSPs(lib, x, v, es[..i], now)
    {
      var e := es[i];
      assert es[..i + 1] == es[..i] + [e];
      var judged := VerifyEndorsement(lib, x, v, e, now);
      results := results + [judged];
      CountsIffBelieved(lib, x, v, e, now);
      if CountsAsValid(judged) {
        validMSPs := validMSPs + {e.msp};
      }
    }
    assert es[..|es|] == es;
    forall i | 0 <= i < |es| ensures CountsAsValid(results[i]) <==> Believed(lib, x, v, es[i], now) {
      CountsIffBelieved(lib, x, v, es[i], now);
    }
  }

  ghost predicate PolicyAccepts(lib: Library, x: X509, v: Verifier, r: Receipt, now: int) {
    EndorsementPolicy.Accepts(EndorsementPolicy.Configured(v.policies, r.policyID),
                              ValidMSPs(lib, x, v, r.endorsements, now))
  }

  /** `trusted`: it was the fallback that decided. */
  method JudgePolicy(lib: Library, x: X509, v: Verifier, r: Receipt, now: int)
    returns (ok: bool, trusted: bool, results: seq<EndorsementResult>)
    ensures ok <==> PolicySatisfied(lib, x, v, r, now)
    ensures trusted <==> ok && !PolicyAccepts(lib, x, v, r, now)
    ensures Judged(lib, x, v, r.endorsements, results, now)
  {
    var validMSPs;
    results, validMSPs := JudgeEndorsements(lib, x, v, r.endorsements, now);
    ok := EndorsementPolicy.VerifyPolicy(v.policies, r.policyID, validMSPs);
    trusted := false;
    if !ok {
      BareNeverCounts(lib, x, v, r.endorsements, results, now);
      ok := CanTrustLedgerValidationFallback(r, results);
      trusted := ok;
    }
  }

  function Note(f: Finding, failed: bool): seq<Finding> { if failed then [f] else [] }

  function Noted(hash: bool, commitment: bool, opening: bool, code: bool, policy: bool, none: bool): seq<Finding> {
    [] + Note(HashMismatch, hash) + Note(CommitmentMismatch, commitment) + Note(OpeningMismatch, opening)
    + Note(NotValidated, code) + Note(PolicyNotSatisfied, policy) + Note(NoEndorsements, none)
  }

  /** Every finding that applies, in the order of the checks. */
  ghost function Findings(lib: Library, x: X509, v: Verifier, r: Receipt, expected: string, now: int): seq<Finding> {
    Noted(Applies(HashMismatch, lib, x, v, r, expected, now), Applies(CommitmentMismatch, lib, x, v, r, expected, now),
          Applies(OpeningMismatch, lib, x, v, r, expected, now), Applies(NotValidated, lib, x, v, r, expected, now),
          Applies(PolicyNotSatisfied, lib, x, v, r, expected, now),
          Applies(NoEndorsements, lib, x, v, r, expected, now))
  }

  method Check(errors: seq<Finding>, f: Finding, failed: bool) returns (after: seq<Finding>)
    ensures after == errors + Note(f, failed)
  {
    after := errors;
    if failed {
      after := errors + [f];
    }
  }

  /** The checks one after the other, each adding its finding when it fails. */
  method Examine(lib: Library, x: X509, v: Verifier, r: Receipt, expected: string, now: int, policySatisfied: bool)
    returns (errors: seq<Finding>)
    requires policySatisfied <==> PolicySatisfied(lib, x, v, r, now)
    ensures errors == Findings(lib, x, v, r, expected, now)
  {
    errors := Check([], HashMismatch, lib.hashView(View(r)) != r.receiptHash);
    errors := Check(errors, CommitmentMismatch, expected != "" && r.commitmentHash != expected);
    errors := Check(errors, OpeningMismatch, !OpeningValid(lib, r));
    errors := Check(errors, NotValidated, r.validationCode != 0);
    errors := Check(errors, PolicyNotSatisfied, !policySatisfied);
    errors := Check(errors, NoEndorsements, r.endorsements == []);
  }

  function Warn(warning: Warning, applies: bool): seq<Warning> { if applies then [warning] else [] }

  method VerifyReceipt(lib: Library, x: X509, v: Verifier, r: Receipt, expected: string, now: int)
    returns (result: Verification)
    ensures result.valid <==> result.errors == []
    ensures result.valid <==> Trustworthy(lib, x, v, r, expected, now)
    ensures result.errors == Findings(lib, x, v, r, expected, now)
    ensures result.receiptHashValid <==> HashValid(lib, r)
    ensures result.commitmentHashMatch <==> expected != "" && r.commitmentHash == expected
    ensures result.commitmentOpeningValid <==> r.commitmentOpening.Some? && OpeningValid(lib, r)
    ensures result.validationCodeValid <==> r.validationCode == 0
    ensures result.policySatisfied <==> PolicySatisfied(lib, x, v, r, now)
    ensures Judged(lib, x, v, r.endorsements, result.endorsementResults, now)
    ensures result.warnings ==
      Warn(OpeningMissing, r.commitmentOpening.None?)
      + Warn(PolicyFromLedger, PolicySatisfied(lib, x, v, r, now) && !PolicyAccepts(lib, x, v, r, now))
      + Warn(BlockNumberZero, r.blockNumber == 0)
  {
    var policySatisfied, trusted, results := JudgePolicy(lib, x, v, r, now);
    var hashValid, opens := lib.hashView(View(r)) == r.receiptHash, false;
    if r.commitmentOpening.Some? {
      opens := lib.hashCommitment(r.commitmentOpening.value) == r.commitmentHash;
    }
    var errors := Examine(lib, x, v, r, expected, now, policySatisfied);
    var warnings := Warn(OpeningMissing, r.commitmentOpening.None?) + Warn(PolicyFromLedger, trusted)
                    + Warn(BlockNumberZero, r.blockNumber == 0);
    result := Verification(errors == [], errors, warnings, hashValid, expected != "" && r.commitmentHash == expected,
                           opens, r.validationCode == 0, policySatisfied, results);
    ValidIffTrustworthy(lib, x, v, r, expected, now, HashMismatch);
  }

  /** Nothing is found, and the receipt called valid, exactly when it is trustworthy; and a finding
      is reported exactly when it applies. */
  lemma ValidIffTrustworthy(lib: Library, x: X509, v: Verifier, r: Receipt, expected: string, now: int, f: Finding)
    ensures Findings(lib, x, v, r, expected, now) == [] <==> Trustworthy(lib, x, v, r, expected, now)
    ensures f in Findings(lib, x, v, r, expected, now) <==> Applies(f, lib, x, v, r, expected, now)
  {
    var all := Findings(lib, x, v, r, expected, now);
    assert forall g | g in all :: Applies(g, lib, x, v, r, expected, now);
    if all != [] {
      assert Applies(all[0], lib, x, v, r, expected, now);
    }
  }

  lemma BareNeverCounts(lib: Library, x: X509, v: Verifier, es: seq<Endorsement>, results: seq<EndorsementResult>,
                        now: int)
    requires |results| == |es| && forall i | 0 <= i < |es| :: results[i] == VerifyEndorsement(lib, x, v, es[i], now)
    ensures (forall e | e in es :: Bare(e)) ==> forall er | er in results :: !CountsAsValid(er)
  {
    if forall e | e in es :: Bare(e) {
      forall i | 0 <= i < |results| ensures !CountsAsValid(results[i]) {
        assert es[i] in es;
      }
    }
  }

  /** Allowing expired certificates never makes one count: the expiry flag is set all the same. */
  lemma ExpiredNeverCounts(lib: Library, x: X509, v: Verifier, e: Endorsement, now: int)
    requires e.certificatePEM != "" && lib.pem(e.certificatePEM).Some?
    requires x.parse(lib.pem(e.certificatePEM).value).Some?
    requires
      var cert := x.parse(lib.pem(e.certificatePEM).value).value;
      now < cert.notBefore || now > cert.notAfter
    ensures !CountsAsValid(VerifyEndorsement(lib, x, v, e, now))
  {}

  /** The fingerprint recorded at building time is the one verification recomputes, so a full
      certificate of a trusted organisation counts exactly when it is in date, chains, and its
      signature was recorded as valid. */
  lemma BuiltEndorsementCounts(lib: Library, x: X509, v: Verifier, input: EndorsementInput, now: int)
    requires input.certPEM != "" && input.msp in v.trusted && !v.allowExpiredCerts
    ensures
      CountsAsValid(VerifyEndorsement(lib, x, v, Recorded(lib, true, input), now)) <==>
        && input.signatureValid && lib.pem(input.certPEM).Some?
        && x.parse(lib.pem(input.certPEM).value).Some?
        && (var cert := x.parse(lib.pem(input.certPEM).value).value; cert.notBefore <= now <= cert.notAfter)
        && x.chains(input.msp, lib.pem(input.certPEM).value, now)
  {}

  /** Moving a receipt over the wire never changes the outcome of its verification. */
  lemma WireKeepsVerdict(lib: Library, x: X509, v: Verifier, r: Receipt, expected: string, now: int)
    ensures Trustworthy(lib, x, v, DTOToReceipt(ReceiptToDTO(r)), expected, now)
            <==> Trustworthy(lib, x, v, r, expected, now)
  {
    RoundTrip(lib, r, ReceiptToDTO(r));
  }
}
